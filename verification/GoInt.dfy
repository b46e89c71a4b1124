/** Go's fixed-width integers: every operation is done on int and wrapped to the width. */
module GoInt {
  const MAX_INT64: int := 0x7FFF_FFFF_FFFF_FFFF
  const TWO_TO_THE_64: int := 0x1_0000_0000_0000_0000

  predicate IsInt64(n: int) {
    -MAX_INT64 - 1 <= n <= MAX_INT64
  }

  function Wrap64(n: int): (r: int)
    ensures IsInt64(r)
    ensures IsInt64(n) ==> r == n
    ensures MAX_INT64 < n < TWO_TO_THE_64 ==> r == n - TWO_TO_THE_64
  {
    (n + MAX_INT64 + 1) % TWO_TO_THE_64 - MAX_INT64 - 1
  }

  /** Integer division of Go, which rounds toward zero. */
  function Quotient(a: int, b: int): int
    requires b != 0
  {
    if a >= 0 then a / b else -((-a) / b)
  }

  const MAX_INT32: int := 0x7FFF_FFFF
  const TWO_TO_THE_32: int := 0x1_0000_0000

  predicate IsInt32(n: int) {
    -MAX_INT32 - 1 <= n <= MAX_INT32
  }

  /** The conversion int32(n). */
  function Wrap32(n: int): (r: int)
    ensures IsInt32(r)
    ensures IsInt32(n) ==> r == n
    ensures MAX_INT32 < n < TWO_TO_THE_32 ==> r == n - TWO_TO_THE_32
  {
    (n + MAX_INT32 + 1) % TWO_TO_THE_32 - MAX_INT32 - 1
  }

  /** Wrapping after every addition or once at the end is the same. */
  lemma WrapOnce(a: int, b: int)
    ensures Wrap64(Wrap64(a) + b) == Wrap64(a + b)
  {
  }
}
