/** Go's 64-bit signed integers, which wrap around on overflow. */
module Integers {
  const INT64_LIMIT := 0x8000_0000_0000_0000

  predicate Int64(n: int) {
    -INT64_LIMIT <= n < INT64_LIMIT
  }

  /** The int64 that x overflows to. */
  function Wrap(x: int): (r: int)
    ensures Int64(r)
    ensures Int64(x) ==> r == x
    ensures (x - r) % 0x1_0000_0000_0000_0000 == 0
  {
    (x + INT64_LIMIT) % (2 * INT64_LIMIT) - INT64_LIMIT
  }
}
