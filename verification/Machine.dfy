/** What the kernel takes from the machine: 32-bit words, pages, the end of a C string. */
module Machine {

  const TWO32 := 0x1_0000_0000
  const INT_MAX := 0x7FFF_FFFF
  const INT_MIN := -0x8000_0000
  const PAGE_SIZE := 4096
  const NUL := '\0'

  /** An address, or any other uint32_t. */
  predicate Word(x: int) {
    0 <= x < TWO32
  }

  /** Unsigned 32-bit arithmetic wraps around. */
  function Wrap(x: int): int {
    x % TWO32
  }

  lemma WrapIs(x: int)
    ensures Word(x) ==> Wrap(x) == x
    ensures TWO32 <= x < 2 * TWO32 ==> Wrap(x) == x - TWO32
    ensures -TWO32 <= x < 0 ==> Wrap(x) == x + TWO32
  {
  }
}
