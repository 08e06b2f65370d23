/** Go's int64: values outside the range wrap around. PostgreSQL's bigint has the same range but
raises an error instead. */
module Int64 {

  const LARGEST := 0x7FFF_FFFF_FFFF_FFFF

  predicate InRange(x: int) { -0x8000_0000_0000_0000 <= x < 0x8000_0000_0000_0000 }

  function Wrap(x: int): (r: int)
    ensures InRange(r)
    ensures InRange(x) ==> r == x
  {
    (x + 0x8000_0000_0000_0000) % 0x1_0000_0000_0000_0000 - 0x8000_0000_0000_0000
  }
}
