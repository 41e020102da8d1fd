/** The size units of include/stream-buffer/stream-buffer.h: the `Unit`
    enumeration, the `In_bytes` values, and the two lookup tables
    `UNIT_NAMES` and `UNIT_SIZES`. */
module Units {
  import opened Wrappers
  import opened Native

  /** `enum class Unit : uint8_t`, in declaration order. */
  datatype Unit = B | KB | KiB | MB | MiB | GB | GiB | TB | TiB | PB | PiB

  /** The enumerator values: `B = 1`, the rest counting up from it. */
  function Ordinal(u: Unit): (n: nat)
    ensures 1 <= n <= 11
  {
    match u
    case B => 1
    case KB => 2
    case KiB => 3
    case MB => 4
    case MiB => 5
    case GB => 6
    case GiB => 7
    case TB => 8
    case TiB => 9
    case PB => 10
    case PiB => 11
  }

  /** `static_cast<Unit>(n)` followed by a lookup in `UNIT_SIZES`: only the
      eleven declared enumerators are keys of the table, so any other value
      makes `UNIT_SIZES.at` throw `std::out_of_range` (None). */
  function FromOrdinal(n: nat): (r: Option<Unit>)
    ensures r.Some? <==> 1 <= n <= 11
    ensures r.Some? ==> Ordinal(r.value) == n
  {
    if n == 1 then Some(B)
    else if n == 2 then Some(KB)
    else if n == 3 then Some(KiB)
    else if n == 4 then Some(MB)
    else if n == 5 then Some(MiB)
    else if n == 6 then Some(GB)
    else if n == 7 then Some(GiB)
    else if n == 8 then Some(TB)
    else if n == 9 then Some(TiB)
    else if n == 10 then Some(PB)
    else if n == 11 then Some(PiB)
    else None
  }

  /** The ordinals are distinct, none is 0, and each fits in the 4 bits the
      resize payload reserves for it. */
  lemma OrdinalRoundTrip(u: Unit)
    ensures FromOrdinal(Ordinal(u)) == Some(u)
    ensures 0 < Ordinal(u) < 16
  {
  }

  // `enum class In_bytes : uint64_t`, each value written as in the header.
  const IN_BYTES_B: nat := 1
  const IN_BYTES_KB: nat := 1000
  const IN_BYTES_KIB: nat := 1024
  const IN_BYTES_MB: nat := IN_BYTES_KB * IN_BYTES_KB
  const IN_BYTES_MIB: nat := IN_BYTES_KIB * IN_BYTES_KIB
  const IN_BYTES_GB: nat := IN_BYTES_KB * IN_BYTES_MB
  const IN_BYTES_GIB: nat := IN_BYTES_KIB * IN_BYTES_MIB
  const IN_BYTES_TB: nat := IN_BYTES_KB * IN_BYTES_GB
  const IN_BYTES_TIB: nat := IN_BYTES_KIB * IN_BYTES_GIB
  const IN_BYTES_PB: nat := IN_BYTES_KB * IN_BYTES_TB
  // As written in the header: KiB * GiB, not KiB * TiB.
  const IN_BYTES_PIB: nat := IN_BYTES_KIB * IN_BYTES_GIB

  /** `UNIT_SIZES.at(u)`: the table pairs every unit with the `In_bytes`
      value of the same name, so the lookup by a `Unit` never fails. Every
      unit is at least one byte, only B is exactly one, and every size fits
      in a `uint64_t`. */
  function UnitSize(u: Unit): (n: nat)
    ensures 1 <= n < U64_LIMIT
    ensures n == 1 <==> u == B
  {
    match u
    case B => IN_BYTES_B
    case KB => IN_BYTES_KB
    case KiB => IN_BYTES_KIB
    case MB => IN_BYTES_MB
    case MiB => IN_BYTES_MIB
    case GB => IN_BYTES_GB
    case GiB => IN_BYTES_GIB
    case TB => IN_BYTES_TB
    case TiB => IN_BYTES_TIB
    case PB => IN_BYTES_PB
    case PiB => IN_BYTES_PIB
  }

  function Pow(base: nat, e: nat): nat
  {
    if e == 0 then 1 else base * Pow(base, e - 1)
  }

  /** The decimal units are successive powers of 1000. */
  lemma DecimalUnitSizes()
    ensures UnitSize(B) == Pow(1000, 0)
    ensures UnitSize(KB) == Pow(1000, 1) && UnitSize(MB) == Pow(1000, 2)
    ensures UnitSize(GB) == Pow(1000, 3) && UnitSize(TB) == Pow(1000, 4)
    ensures UnitSize(PB) == Pow(1000, 5)
  {
  }

  /** The binary units up to TiB are successive powers of 1024 (2^10 ... 2^40);
      PiB, written `KiB * GiB`, is 2^40 as well and so equals TiB. */
  lemma BinaryUnitSizes()
    ensures UnitSize(KiB) == Pow(2, 10) && UnitSize(MiB) == Pow(2, 20)
    ensures UnitSize(GiB) == Pow(2, 30) && UnitSize(TiB) == Pow(2, 40)
    ensures UnitSize(PiB) == Pow(2, 40) && UnitSize(PiB) == UnitSize(TiB)
  {
  }

  /** The spelling of a unit in a size specification. */
  function Name(u: Unit): string
  {
    match u
    case B => "B"
    case KB => "KB"
    case KiB => "KiB"
    case MB => "MB"
    case MiB => "MiB"
    case GB => "GB"
    case GiB => "GiB"
    case TB => "TB"
    case TiB => "TiB"
    case PB => "PB"
    case PiB => "PiB"
  }

  /** `UNIT_NAMES`: exactly eleven case-sensitive keys. */
  const UNIT_NAMES: map<string, Unit> := map[
    "B" := B, "KB" := KB, "KiB" := KiB, "MB" := MB, "MiB" := MiB,
    "GB" := GB, "GiB" := GiB, "TB" := TB, "TiB" := TiB,
    "PB" := PB, "PiB" := PiB]

  /** `UNIT_NAMES` maps each unit's own name to that unit and holds no other
      key: a string is a key exactly when it is the name of some unit. */
  lemma UnitNamesExact(s: string)
    ensures s in UNIT_NAMES <==> exists u: Unit :: Name(u) == s
    ensures s in UNIT_NAMES ==> Name(UNIT_NAMES[s]) == s
  {
    if s in UNIT_NAMES {
      assert Name(UNIT_NAMES[s]) == s;
    }
    if u: Unit :| Name(u) == s {
      match u
      case B =>
      case KB =>
      case KiB =>
      case MB =>
      case MiB =>
      case GB =>
      case GiB =>
      case TB =>
      case TiB =>
      case PB =>
      case PiB =>
    }
  }

  /** Looking a unit's name up in `UNIT_NAMES` gives back that unit. */
  lemma UnitNameLookup(u: Unit)
    ensures Name(u) in UNIT_NAMES && UNIT_NAMES[Name(u)] == u
  {
  }

  /** Every unit name starts with an upper-case letter, never a digit. */
  lemma NameStartsWithLetter(u: Unit)
    ensures |Name(u)| > 0 && 'A' <= Name(u)[0] <= 'Z'
  {
  }
}
