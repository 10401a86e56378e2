/** Shared result types and the machine integers of the modelled code. */
module Prelude {
  datatype Option<+T> = None | Some(value: T)

  datatype Result<+T, +E> = Ok(value: T) | Err(error: E)

  const U64_MAX: int := 0xFFFF_FFFF_FFFF_FFFF
  const U128_MAX: int := 0xFFFF_FFFF_FFFF_FFFF_FFFF_FFFF_FFFF_FFFF
  const I128_MAX: int := 0x7FFF_FFFF_FFFF_FFFF_FFFF_FFFF_FFFF_FFFF
  const I128_MIN: int := -0x8000_0000_0000_0000_0000_0000_0000_0000

  type u64 = n: int | 0 <= n <= 0xFFFF_FFFF_FFFF_FFFF
  type u32 = n: int | 0 <= n <= 0xFFFF_FFFF
  type i128 = n: int |
      -0x8000_0000_0000_0000_0000_0000_0000_0000 <= n <= 0x7FFF_FFFF_FFFF_FFFF_FFFF_FFFF_FFFF_FFFF

  predicate FitsI128(n: int) { I128_MIN <= n <= I128_MAX }

  predicate FitsU128(n: int) { 0 <= n <= U128_MAX }

  /** A checked 128-bit operation: the exact value, or nothing when it does not fit. */
  function CheckedI128(n: int): Option<i128> {
    if FitsI128(n) then Some(n) else None
  }

  function CheckedU128(n: int): Option<int> {
    if FitsU128(n) then Some(n) else None
  }

  /** `unsigned_abs` / `abs_diff`: a magnitude, exact in the unsigned type. */
  function Magnitude(n: int): nat {
    if n < 0 then -n else n
  }

  /** Three coordinates, indexed by axis as the modelled loops index them. */
  datatype Axes<+T> = Axes(x: T, y: T, z: T) {
    function At(axis: nat): T
      requires axis < 3
    {
      if axis == 0 then x else if axis == 1 then y else z
    }
  }

  predicate IdentifierByte(c: char) {
    '0' <= c <= '9' || 'A' <= c <= 'Z' || 'a' <= c <= 'z' || c == '-' || c == '_' || c == '.' || c == ':'
  }

  /** `validate_stable_id`: 1 to 128 bytes of a fixed ASCII alphabet. */
  predicate ValidStableId(value: string) {
    1 <= |value| <= 128 && forall i | 0 <= i < |value| :: IdentifierByte(value[i])
  }

  /** `valid_blake3_hex`: 64 lower-case hexadecimal digits. */
  predicate ValidHash(value: string) {
    |value| == 64 && forall i | 0 <= i < |value| :: '0' <= value[i] <= '9' || 'a' <= value[i] <= 'f'
  }

  /** The bytes of an identifier by their ASCII codes: hyphen and full stop, the digits and the colon
      after them, the capital letters, the underscore, the small letters. */
  predicate IdentifierCode(code: int) {
    code == 45 || code == 46 || 48 <= code <= 58 || 65 <= code <= 90 || code == 95 || 97 <= code <= 122
  }

  /** A stable id is a non-empty text of at most 128 such bytes; a hash is exactly 64 digits and
      small letters up to f. */
  lemma TextsByCode(value: string)
    ensures ValidStableId(value) <==>
              0 < |value| < 129 && forall i | 0 <= i < |value| :: IdentifierCode(value[i] as int)
    ensures ValidHash(value) <==>
              |value| == 64 && forall i | 0 <= i < |value| ::
                48 <= value[i] as int <= 57 || 97 <= value[i] as int <= 102
  {
    forall i | 0 <= i < |value| ensures IdentifierByte(value[i]) <==> IdentifierCode(value[i] as int) {}
  }
}
