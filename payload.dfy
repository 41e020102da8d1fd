/** The 32-bit resize payload carried by SIGUSR1: packed by the controller in
    src/ctl.cpp, unpacked by the signal listener in src/main.cpp. The top four
    bits hold the unit's ordinal and the low 28 bits the magnitude.

    The bit operations are written arithmetically on unsigned values:
    `x >> 28` is `x / 2^28`, `x & SIZE_MASK` is `x % 2^28` (the mask is
    2^28 - 1), `x << 28` is `x * 2^28`, and `|` of two values with no set bit
    in common is their sum. */
module Payload {
  import opened Wrappers
  import opened Native
  import opened Units

  /** 2^28, the weight of the lowest unit bit. */
  const UNIT_SHIFT: nat := 0x1000_0000

  /** `SIZE_MASK`, the low 28 bits, and so the largest magnitude the payload
      can carry. */
  const SIZE_MASK: nat := 0x0FFF_FFFF

  /** The controller's packing `(unit << 28) | (size & SIZE_MASK)`, taken to
      32 bits. (In C++ the shift is done on a promoted `int` and the `|` on a
      `size_t`; the final cast to `uint32_t` drops everything above bit 31,
      so the value is the one computed here.) */
  function Pack(u: Unit, size: nat): (p: u32)
    requires size <= SIZE_MASK
    ensures p / UNIT_SHIFT == Ordinal(u)
    ensures p % UNIT_SHIFT == size
  {
    Ordinal(u) * UNIT_SHIFT + size % UNIT_SHIFT
  }

  /** The listener's unpacking: `payload >> 28` and `payload & SIZE_MASK`.
      Every 32-bit value splits into a 4-bit unit and a 28-bit size that
      together give the payload back: no bit is dropped. */
  function Unpack(p: u32): (r: (nat, nat))
    ensures r.0 < 16 && r.1 <= SIZE_MASK
    ensures r.0 * UNIT_SHIFT + r.1 == p
  {
    (p / UNIT_SHIFT, p % UNIT_SHIFT)
  }

  /** Round trip: unpacking a packed payload recovers the unit and the
      magnitude exactly, for every unit and every magnitude below 2^28. */
  lemma {:induction false} PackUnpack(u: Unit, size: nat)
    requires size <= SIZE_MASK
    ensures Unpack(Pack(u, size)) == (Ordinal(u), size)
    ensures FromOrdinal(Unpack(Pack(u, size)).0) == Some(u)
  {
    OrdinalRoundTrip(u);
  }

  /** The other direction: packing what was unpacked gives the payload back,
      whenever its top four bits name a unit. */
  lemma {:induction false} UnpackPack(p: u32)
    requires FromOrdinal(Unpack(p).0).Some?
    ensures Pack(FromOrdinal(Unpack(p).0).value, Unpack(p).1) == p
  {
  }
}
