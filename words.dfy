/**
 * The unsigned C integer types of the source, as ranges of int.
 */
module Words {
  /** uint16_t. */
  type u16 = x: int | 0 <= x < 0x1_0000
  /** uint32_t. */
  type u32 = x: int | 0 <= x < 0x1_0000_0000
  /** uint64_t, and unsigned long on a 64-bit target. */
  type u64 = x: int | 0 <= x < 0x1_0000_0000_0000_0000
}
