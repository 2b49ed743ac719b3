/** Go's `int32`: the range, two's-complement wrap-around and the `++` operator. */
module Int32 {

  const MAX: int := 0x7fff_ffff
  const MIN: int := -0x8000_0000

  type int32 = x: int | MIN <= x <= MAX

  /** The representative of `x` modulo 2^32 that fits an int32. */
  function Wrap(x: int): int32 {
    (x + 0x8000_0000) % 0x1_0000_0000 - 0x8000_0000
  }

  /** `x++` on an int32. */
  function Increment(x: int32): int32 {
    if x == MAX then MIN else x + 1
  }

  lemma WrapIncrement(x: int)
    ensures Increment(Wrap(x)) == Wrap(x + 1)
  {
    var q, r := (x + 0x8000_0000) / 0x1_0000_0000, (x + 0x8000_0000) % 0x1_0000_0000;
    assert x + 0x8000_0001 == q * 0x1_0000_0000 + (r + 1);
  }

  lemma WrapExact(x: nat)
    ensures Wrap(x) == x <==> x <= MAX
    ensures Wrap(x) <= x
  {
  }
}
