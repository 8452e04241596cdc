/** The fixed-width unsigned integers of the C sources, as subset types. */
module CInt {
  const U32_RANGE := 0x1_0000_0000

  type u8 = x: int | 0 <= x < 0x100
  type u16 = x: int | 0 <= x < 0x1_0000
  type u32 = x: int | 0 <= x < U32_RANGE

  /** Conversion to `uint32_t`: reduction modulo 2^32, also of negative values. */
  function Wrap32(x: int): u32 {
    x % U32_RANGE
  }

  /** Unsigned subtraction never exceeds the true difference when that difference is not negative. */
  lemma ElapsedAtMostTrue(now: int, before: int)
    requires before <= now
    ensures Wrap32(now - before) <= now - before
  {
    assert now - before == (now - before) / U32_RANGE * U32_RANGE + Wrap32(now - before);
  }
}
