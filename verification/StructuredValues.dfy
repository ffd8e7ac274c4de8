/**
 The values that cross the host boundary (crates/mustard/src/structured.rs).

 A well-formed JavaScript or Rust string is its sequence of Unicode scalar values, which is
 exactly Dafny's `string`.  A binary64 number is its 64-bit pattern (section 3.4 of IEEE 754-2019).
 */
module StructuredValues {
  type byte = b: int | 0 <= b < 256

  /** A binary64 bit pattern, read as an unsigned 64-bit integer. */
  type F64 = n: int | 0 <= n < 0x1_0000_0000_0000_0000

  const SIGN_BIT: F64 := 0x8000_0000_0000_0000
  const POSITIVE_INFINITY: F64 := 0x7FF0_0000_0000_0000
  const NEGATIVE_INFINITY: F64 := 0xFFF0_0000_0000_0000
  const QUIET_NAN: F64 := 0x7FF8_0000_0000_0000

  /** The pattern with its sign bit cleared. */
  function Magnitude(bits: F64): F64 {
    if bits < SIGN_BIT then bits else bits - SIGN_BIT
  }

  predicate IsNaN(bits: F64) {
    Magnitude(bits) > POSITIVE_INFINITY
  }

  datatype StructuredNumber = Finite(bits: F64) | NaN | Infinity | NegInfinity | NegZero

  datatype StructuredValue =
    | Undefined
    | Null
    | Hole
    | Bool(flag: bool)
    | String(text: string)
    | Number(number: StructuredNumber)
    | Array(items: seq<StructuredValue>)
    | Object(entries: seq<Entry>)

  /** One entry of an insertion-ordered map. */
  datatype Entry = Entry(key: string, value: StructuredValue)

  /** `StructuredNumber::from_f64`. */
  function FromF64(bits: F64): StructuredNumber {
    if IsNaN(bits) then NaN
    else if bits == SIGN_BIT then NegZero
    else if bits == POSITIVE_INFINITY then Infinity
    else if bits == NEGATIVE_INFINITY then NegInfinity
    else Finite(bits)
  }

  /** `StructuredNumber::to_f64`. */
  function ToF64(number: StructuredNumber): F64 {
    match number
    case Finite(bits) => bits
    case NaN => QUIET_NAN
    case Infinity => POSITIVE_INFINITY
    case NegInfinity => NEGATIVE_INFINITY
    case NegZero => SIGN_BIT
  }

  /** A number no two of whose representations denote the same float: the payload of `Finite` is
      a finite pattern other than negative zero. */
  predicate CanonicalNumber(number: StructuredNumber) {
    number.Finite? ==> Magnitude(number.bits) < POSITIVE_INFINITY && number.bits != SIGN_BIT
  }

  /** Two patterns JavaScript cannot tell apart with `Object.is`: equal, or both NaN. */
  predicate SameFloat(a: F64, b: F64) {
    a == b || (IsNaN(a) && IsNaN(b))
  }

  /** The two conversions invert each other: on every float up to the choice of NaN pattern, and
      on a number exactly when it is canonical. */
  lemma NumberConversionsInvert(bits: F64, number: StructuredNumber)
    ensures SameFloat(ToF64(FromF64(bits)), bits)
    ensures CanonicalNumber(FromF64(bits))
    ensures FromF64(ToF64(number)) == number <==> CanonicalNumber(number)
  {
  }
}
