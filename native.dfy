/** The C++ fixed-width unsigned integer types the relay computes with, as
    bounded subsets of the mathematical integers. Wrap-around is written out
    where the code relies on it. */
module Native {

  /** `uint8_t`: one byte of the data stream or of a command record. */
  type byte = x: int | 0 <= x < 0x100

  /** `uint32_t`: the resize payload and the magnitude in a command record. */
  const U32_LIMIT: nat := 0x1_0000_0000
  type u32 = x: int | 0 <= x < U32_LIMIT

  /** `uint64_t` and `size_t` (64 bits on the target). */
  const U64_LIMIT: nat := 0x1_0000_0000_0000_0000
  type u64 = x: int | 0 <= x < U64_LIMIT
}
