/** The numeric domain of the engine: IEEE-754 binary64 values, kept as their
    64-bit patterns.  The engine only ever adds, subtracts, multiplies, divides,
    raises to a power, calls six libm functions and scans decimal literals; all
    of those are uninterpreted here and reach the model through a `Primitives`
    record.  Only the two operations whose IEEE meaning is a fixed bit
    manipulation are concrete: negation flips the sign bit, and `x == 0.0`
    holds exactly when every bit but the sign bit is clear. */
module Float {

  /** The bit pattern of a binary64 value. */
  type F64 = bv64

  type Byte = bv8

  /** +0.0, the value of every zero-initialised result record. */
  const Zero: F64 := 0

  const SignMask: F64 := 0x8000_0000_0000_0000
  const MagnitudeMask: F64 := 0x7FFF_FFFF_FFFF_FFFF

  /** The binary64 nearest to 3.14159265358979323846 (the source's MP_PI). */
  const Pi: F64 := 0x4009_21FB_5444_2D18

  /** The binary64 nearest to 2.7182818284590452354 (the source's MP_E). */
  const EulerE: F64 := 0x4005_BF0A_8B14_5769

  /** Unary minus on a double: flips the sign bit and nothing else. */
  function Negate(x: F64): F64 {
    x ^ SignMask
  }

  /** The comparison `x == 0.0`: true for +0.0 and -0.0, false for NaN. */
  predicate IsZero(x: F64) {
    x & MagnitudeMask == 0
  }

  /** The floating-point operations the engine calls, left uninterpreted. */
  datatype Primitives = Primitives(
    add: (F64, F64) -> F64,
    sub: (F64, F64) -> F64,
    mul: (F64, F64) -> F64,
    div: (F64, F64) -> F64,
    pow: (F64, F64) -> F64,
    ln: F64 -> F64,
    log10: F64 -> F64,
    sin: F64 -> F64,
    cos: F64 -> F64,
    tan: F64 -> F64,
    sqrt: F64 -> F64,
    /** The value `strtod` gives to a decimal literal. */
    strtod: string -> F64
  )

  /** The eight bytes a double occupies in memory, least significant first. */
  function EncodeBytes(x: F64): (b: seq<Byte>)
    ensures |b| == 8
    ensures b[0] as F64 == x & 0xFF
  {
    [ (x & 0xFF) as Byte,
      ((x >> 8) & 0xFF) as Byte,
      ((x >> 16) & 0xFF) as Byte,
      ((x >> 24) & 0xFF) as Byte,
      ((x >> 32) & 0xFF) as Byte,
      ((x >> 40) & 0xFF) as Byte,
      ((x >> 48) & 0xFF) as Byte,
      ((x >> 56) & 0xFF) as Byte ]
  }

  /** Reads a double back from eight bytes, least significant first. */
  function DecodeBytes(b: seq<Byte>): (x: F64)
    requires |b| == 8
    ensures x & 0xFF == b[0] as F64
  {
    (b[0] as F64)
    | ((b[1] as F64) << 8)
    | ((b[2] as F64) << 16)
    | ((b[3] as F64) << 24)
    | ((b[4] as F64) << 32)
    | ((b[5] as F64) << 40)
    | ((b[6] as F64) << 48)
    | ((b[7] as F64) << 56)
  }

  /** Storing a double and loading it again yields the same double. */
  lemma DecodeEncode(x: F64)
    ensures DecodeBytes(EncodeBytes(x)) == x
  {
  }

  /** Loading eight bytes as a double and storing it again yields the same bytes. */
  lemma EncodeDecode(b: seq<Byte>)
    requires |b| == 8
    ensures EncodeBytes(DecodeBytes(b)) == b
  {
  }

  /** Negation keeps the magnitude bits and flips the sign bit. */
  lemma NegateFlipsSign(x: F64)
    ensures Negate(x) & MagnitudeMask == x & MagnitudeMask
    ensures Negate(x) & SignMask != x & SignMask
  {
  }

  /** Negation is an involution and does not change whether a value is zero. */
  lemma NegateInvolution(x: F64)
    ensures Negate(Negate(x)) == x
    ensures IsZero(Negate(x)) <==> IsZero(x)
  {
  }
}
