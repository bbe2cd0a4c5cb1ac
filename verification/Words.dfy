/** The machine's words: their sizes, and arithmetic that wraps around in them. */
module Words {

  const TWO31: nat := 0x8000_0000
  const TWO32: nat := 0x1_0000_0000
  const TWO64: nat := 0x1_0000_0000_0000_0000
  const INT_MAX: nat := 0x7fff_ffff
  const SIZE_MAX: nat := 0xffff_ffff_ffff_ffff
  const SSIZE_MAX: int := 0x7fff_ffff_ffff_ffff

  /** A number kept in an unsigned 64-bit word. */
  function Wrap(x: int): nat {
    x % TWO64
  }

  /** A size returned as a 32-bit int. */
  function AsInt(n: nat): int {
    var low := n % TWO32;
    if low < TWO31 then low else low - TWO32
  }
}
