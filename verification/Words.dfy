/** The integers that 32-bit words stand for, and what the operators of C do to them. The
    operators are named here so that a proof can be about integers or about bits, one at a time. */
module Words {
  function Half(w: bv32): bv32 { w >> 1 }
  function Double(w: bv32): bv32 { w << 1 }
  function Next(w: bv32): bv32 { w + 1 }
  function Or(a: bv32, b: bv32): bv32 { a | b }
  predicate Odd(w: bv32) { w & 1 == 1 }
  predicate Apart(a: bv32, b: bv32) { a & b == 0 }

  /** The integer that a word stands for, from its binary digits. */
  function Value(w: bv32): nat
    decreases w
  {
    if w == 0 then 0 else
      Halves(w);
      (if Odd(w) then 1 else 0) + 2 * Value(Half(w))
  }

  lemma Halves(w: bv32)
    ensures w != 0 ==> Half(w) < w
  {
  }

  lemma OfZero()
    ensures Half(0) == 0 && !Odd(0)
  {
  }

  // ---- disjoint digits are added ------------------------------------------------------

  lemma OrHalves(a: bv32, b: bv32)
    requires Apart(a, b)
    ensures Half(Or(a, b)) == Or(Half(a), Half(b))
  {
  }

  lemma HalvesApart(a: bv32, b: bv32)
    requires Apart(a, b)
    ensures Apart(Half(a), Half(b))
  {
  }

  lemma OrOdd(a: bv32, b: bv32)
    requires Apart(a, b)
    ensures Odd(Or(a, b)) <==> Odd(a) || Odd(b)
    ensures !(Odd(a) && Odd(b))
    ensures Or(a, b) == 0 <==> a == 0 && b == 0
  {
  }

  lemma {:induction false} ValueOfOr(a: bv32, b: bv32)
    requires Apart(a, b)
    ensures Value(Or(a, b)) == Value(a) + Value(b)
    decreases Or(a, b)
  {
    hide Half, Odd, Or, Apart;
    OrHalves(a, b);
    HalvesApart(a, b);
    OrOdd(a, b);
    OfZero();
    Halves(Or(a, b));
    if Or(a, b) != 0 { ValueOfOr(Half(a), Half(b)); }
  }

  // ---- the next word ------------------------------------------------------------------

  lemma NextBits(w: bv32)
    requires w < 0xFFFF_FFFF
    ensures Next(w) != 0
    ensures Odd(w) ==> !Odd(Next(w)) && Half(Next(w)) == Next(Half(w)) && Half(w) < 0xFFFF_FFFF
    ensures !Odd(w) ==> Odd(Next(w)) && Half(Next(w)) == Half(w)
  {
  }

  lemma {:induction false} ValueOfNext(w: bv32)
    requires w < 0xFFFF_FFFF
    ensures Value(Next(w)) == Value(w) + 1
    decreases w
  {
    hide Half, Odd, Next;
    NextBits(w);
    Halves(w);
    OfZero();
    if Odd(w) { ValueOfNext(Half(w)); }
  }

  // ---- shifts and masks ---------------------------------------------------------------

  lemma {:induction false} OnlyZero(w: bv32)
    ensures Value(w) == 0 <==> w == 0
    decreases w
  {
    hide Half, Odd;
    Halves(w);
    if w != 0 {
      OnlyZero(Half(w));
      SomeDigit(w);
    }
  }

  lemma SomeDigit(w: bv32)
    requires w != 0
    ensures Half(w) != 0 || Odd(w)
  {
  }

  lemma ValueOfHalf(w: bv32)
    ensures Value(Half(w)) == Value(w) / 2
  {
    hide Half, Odd;
    OfZero();
  }

  lemma DoubleBits(w: bv32)
    requires w < 0x8000_0000
    ensures Half(Double(w)) == w && !Odd(Double(w)) && (Double(w) == 0 <==> w == 0)
  {
  }

  lemma ValueOfDouble(w: bv32)
    requires w < 0x8000_0000
    ensures Value(Double(w)) == 2 * Value(w)
  {
    hide Half, Odd, Double;
    DoubleBits(w);
  }

  lemma RightBits(w: bv32)
    ensures w >> 3 == Half(Half(Half(w))) && w >> 6 == (w >> 3) >> 3
    ensures w >> 7 == Half(w >> 6) && w >> 10 == Half((w >> 6) >> 3) && w >> 11 == Half(w >> 10)
    ensures w >> 12 == (w >> 6) >> 6 && w >> 16 == (w >> 10) >> 6 && w >> 18 == (w >> 12) >> 6
  {
  }

  lemma Right3(w: bv32)
    ensures Value(w >> 3) == Value(w) / 8
  {
    hide Half, Value;
    RightBits(w);
    ValueOfHalf(w);
    ValueOfHalf(Half(w));
    ValueOfHalf(Half(Half(w)));
  }

  lemma Right6(w: bv32)
    ensures Value(w >> 6) == Value(w) / 0x40 && Value(w >> 7) == Value(w) / 0x80
  {
    hide Half, Value;
    RightBits(w);
    Right3(w);
    Right3(w >> 3);
    ValueOfHalf(w >> 6);
  }

  lemma Right10(w: bv32)
    ensures Value(w >> 10) == Value(w) / 0x400 && Value(w >> 11) == Value(w) / 0x800
  {
    hide Half, Value;
    RightBits(w);
    Right6(w);
    Right3(w >> 6);
    ValueOfHalf((w >> 6) >> 3);
    ValueOfHalf(w >> 10);
  }

  lemma Right12(w: bv32)
    ensures Value(w >> 12) == Value(w) / 0x1000
  {
    hide Half, Value;
    RightBits(w);
    Right6(w);
    Right6(w >> 6);
  }

  lemma Right18(w: bv32)
    ensures Value(w >> 18) == Value(w) / 0x4_0000
  {
    hide Half, Value;
    RightBits(w);
    Right12(w);
    Right6(w >> 12);
  }

  lemma Right16(w: bv32)
    ensures Value(w >> 16) == Value(w) / 0x1_0000
  {
    hide Half, Value;
    RightBits(w);
    Right10(w);
    Right6(w >> 10);
  }

  lemma LeftBits(w: bv32)
    ensures w < 0x1000_0000 ==> Double(w) < 0x2000_0000 && Double(Double(w)) < 0x4000_0000
    ensures w << 3 == Double(Double(Double(w))) && w << 6 == (w << 3) << 3
    ensures w << 10 == Double((w << 6) << 3) && w << 16 == (w << 10) << 6
  {
  }

  lemma LeftFits(w: bv32)
    ensures w < 0x40_0000 ==> w << 3 < 0x200_0000 && w << 6 < 0x1000_0000 && (w << 6) << 3 < 0x8000_0000
    ensures w < 0x1_0000 ==> w << 10 < 0x400_0000
  {
  }

  lemma Left3(w: bv32)
    requires w < 0x1000_0000
    ensures Value(w << 3) == 8 * Value(w)
  {
    hide Double, Value;
    LeftBits(w);
    ValueOfDouble(w);
    ValueOfDouble(Double(w));
    ValueOfDouble(Double(Double(w)));
  }

  lemma Left6(w: bv32)
    requires w < 0x40_0000
    ensures Value(w << 6) == 0x40 * Value(w)
  {
    hide Double, Value;
    LeftBits(w);
    LeftFits(w);
    Left3(w);
    Left3(w << 3);
  }

  lemma Left10(w: bv32)
    requires w < 0x40_0000
    ensures Value(w << 10) == 0x400 * Value(w)
  {
    hide Double, Value;
    LeftBits(w);
    LeftFits(w);
    Left6(w);
    Left3(w << 6);
    ValueOfDouble((w << 6) << 3);
  }

  predicate Fits(w: bv32) { w < 0x40_0000 }
  function High6(w: bv32): bv32 { (w >> 6) << 6 }
  function High10(w: bv32): bv32 { (w >> 10) << 10 }
  function Low6(w: bv32): bv32 { w & 0x3F }
  function Low10(w: bv32): bv32 { w & 0x3FF }

  lemma MaskBits(w: bv32)
    requires Fits(w)
    ensures Or(High6(w), Low6(w)) == w && Apart(High6(w), Low6(w)) && Fits(w >> 6)
    ensures Or(High10(w), Low10(w)) == w && Apart(High10(w), Low10(w)) && Fits(w >> 10)
  {
  }

  lemma ValueOfHigh6(w: bv32)
    requires Fits(w)
    ensures Value(High6(w)) == 0x40 * (Value(w) / 0x40)
  {
    hide Value;
    Left6(w >> 6);
    Right6(w);
  }

  lemma ValueOfHigh10(w: bv32)
    requires Fits(w)
    ensures Value(High10(w)) == 0x400 * (Value(w) / 0x400)
  {
    hide Value;
    Left10(w >> 10);
    Right10(w);
  }

  lemma Masks(w: bv32)
    requires Fits(w)
    ensures Value(Low6(w)) == Value(w) % 0x40 && Value(Low10(w)) == Value(w) % 0x400
  {
    hide Value, Or, Apart, High6, High10, Low6, Low10, Fits;
    MaskBits(w);
    ValueOfOr(High6(w), Low6(w));
    ValueOfOr(High10(w), Low10(w));
    ValueOfHigh6(w);
    ValueOfHigh10(w);
  }

  // ---- adding 0x1_0000 ----------------------------------------------------------------

  function High16(w: bv32): bv32 { ((w >> 16) << 10) << 6 }
  function Low16(w: bv32): bv32 { w & 0xFFFF }

  lemma PlaneBits(w: bv32)
    requires Fits(w)
    ensures Or(High16(w), Low16(w)) == w && Apart(High16(w), Low16(w))
    ensures w < 0x10_0000 ==>
              && High16(w + 0x1_0000) == ((Next(w >> 16)) << 10) << 6 && Low16(w + 0x1_0000) == Low16(w)
              && (w + 0x1_0000) >> 16 == Next(w >> 16)
  {
  }

  lemma PlaneFits(w: bv32)
    ensures w < 0x10_0000 ==> Fits(w) && Fits(w + 0x1_0000) && w >> 16 < 0xFFFF_FFFF
    ensures Fits(w) ==> w >> 16 < 0x40_0000 && (w >> 16) << 10 < 0x40_0000
  {
  }

  lemma ValueOfHigh16(w: bv32)
    requires Fits(w)
    ensures Value(High16(w)) == 0x1_0000 * Value(w >> 16)
  {
    hide Value;
    PlaneFits(w);
    Left10(w >> 16);
    Left6((w >> 16) << 10);
  }

  lemma ValueOfPlane(w: bv32)
    requires Fits(w)
    ensures Value(w) == 0x1_0000 * Value(w >> 16) + Value(Low16(w))
  {
    hide Value, Or, Apart, High16, Low16, Fits;
    PlaneBits(w);
    ValueOfOr(High16(w), Low16(w));
    ValueOfHigh16(w);
  }

  lemma NextPlane(w: bv32)
    requires w < 0x10_0000
    ensures Value(w + 0x1_0000) == Value(w) + 0x1_0000
  {
    hide Value, Or, Apart, High16, Low16, Fits, Next;
    PlaneFits(w);
    PlaneBits(w);
    ValueOfPlane(w);
    ValueOfPlane(w + 0x1_0000);
    ValueOfNext(w >> 16);
  }

  // ---- bounds -------------------------------------------------------------------------

  lemma Below7(w: bv32)
    ensures w < 0x80 <==> Value(w) < 0x80
  {
    hide Value;
    assert w < 0x80 <==> w >> 7 == 0;
    OnlyZero(w >> 7);
    Right6(w);
  }

  lemma Below11(w: bv32)
    ensures w < 0x800 <==> Value(w) < 0x800
  {
    hide Value;
    assert w < 0x800 <==> w >> 11 == 0;
    OnlyZero(w >> 11);
    Right10(w);
  }

  lemma Below16(w: bv32)
    ensures w < 0x1_0000 <==> Value(w) < 0x1_0000
  {
    hide Value;
    assert w < 0x1_0000 <==> w >> 16 == 0;
    OnlyZero(w >> 16);
    Right16(w);
  }

  // ---- constants ----------------------------------------------------------------------

  lemma Unfold(w: bv32, half: bv32)
    requires w >> 1 == half && w != 0
    ensures Value(w) == (if w & 1 == 1 then 1 else 0) + 2 * Value(half)
  {
  }

  lemma Small()
    ensures Value(1) == 1 && Value(2) == 2 && Value(3) == 3 && Value(4) == 4 && Value(6) == 6 && Value(7) == 7
  {
    Unfold(1, 0);
    Unfold(2, 1);
    Unfold(3, 1);
    Unfold(4, 2);
    Unfold(6, 3);
    Unfold(7, 3);
  }

  /** The marks of the writer, and the bases of UTF-16. */
  lemma Marks()
    ensures Value(0x80) == 0x80 && Value(0xC0) == 0xC0 && Value(0xE0) == 0xE0 && Value(0xF0) == 0xF0
  {
    hide Value;
    Small();
    Left6(2);
    Left6(3);
    Left3(4);
    Left3(2);
    ValueOfOr(0xC0, 0x20);
    ValueOfOr(0xE0, 0x10);
  }

  lemma Bases()
    ensures Value(0xD800) == 0xD800 && Value(0xDC00) == 0xDC00
  {
    hide Value;
    Small();
    Left3(6);
    ValueOfOr(0x30, 6);
    ValueOfOr(0x30, 7);
    Left10(0x36);
    Left10(0x37);
  }
}
