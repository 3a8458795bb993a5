/** The integers that cross the bridge: UTF-16 code units on the Java side, bytes on the
    QuickJS side, and the Unicode scalar values that both of them spell. */
module Unicode {
  type Byte = x: int | 0 <= x < 0x100
  type Unit = x: int | 0 <= x < 0x1_0000

  predicate IsHigh(u: int) { 0xD800 <= u <= 0xDBFF }

  predicate IsLow(u: int) { 0xDC00 <= u <= 0xDFFF }

  type Scalar = cp: int | 0 <= cp <= 0x10FFFF && !(0xD800 <= cp <= 0xDFFF)

  const REPLACEMENT: Scalar := 0xFFFD

  /** A scan step over a nonempty input: the scalar found and how many elements it took. */
  datatype Step = Step(cp: Scalar, size: nat)
}
