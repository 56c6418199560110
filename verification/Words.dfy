/** The fixed-width unsigned integers of the modelled code, as subset types: every value stored
    in one is proved to fit. */
module Words {
  const WORD := 0x1_0000_0000

  type byte = b: int | 0 <= b < 0x100
  type u16 = n: int | 0 <= n < 0x1_0000
  type u32 = n: int | 0 <= n < 0x1_0000_0000
}
