/** Shared value types: optional values, bytes and Go's 64-bit integers. */
module Prelude {

  datatype Option<+T> = None | Some(value: T)

  datatype Result<+T, +E> = Ok(value: T) | Fail(error: E)

  type byte = b: int | 0 <= b < 256

  const MAX_INT64: int := 0x7FFF_FFFF_FFFF_FFFF
  const MIN_INT64: int := -0x8000_0000_0000_0000

  type int64 = n: int | MIN_INT64 <= n <= MAX_INT64

  /** The value a Go int64 holds after an operation whose exact result is n. */
  function Wrap(n: int): (w: int64)
    ensures w == n <==> MIN_INT64 <= n <= MAX_INT64
    ensures exists k: int {:trigger k * 0x1_0000_0000_0000_0000} :: w == n + k * 0x1_0000_0000_0000_0000
  {
    var m := (n - MIN_INT64) % 0x1_0000_0000_0000_0000 + MIN_INT64;
    assert m == n + (-((n - MIN_INT64) / 0x1_0000_0000_0000_0000)) * 0x1_0000_0000_0000_0000;
    m
  }

  function Min(a: int, b: int): int {
    if a <= b then a else b
  }

  function Max(a: int, b: int): int {
    if a <= b then b else a
  }
}
