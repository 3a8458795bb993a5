/** Masks and marks on machine bytes, as the integers that the bytes convert to. */
module MachineBytes {
  lemma MaskLead(c: bv8)
    ensures (c & 0x1F) as int == (c as int) % 0x20
    ensures (c & 0x0F) as int == (c as int) % 0x10
  {
  }

  lemma MaskFour(c: bv8)
    ensures (c & 0x07) as int == (c as int) % 0x08
  {
  }

  lemma MaskTail(c: bv8)
    ensures (c & 0x3F) as int == (c as int) % 0x40
  {
  }
}

/** The masks and shifts of the C code against the arithmetic that the rest of the model uses
    in their place. */
module BitFields {
  import opened Unicode
  import Utf8
  import Utf16
  import opened Words
  import MachineBytes

  /** The reader classifies a byte by a chain of masked comparisons. */
  lemma LeadMasks(c: bv8)
    ensures Utf8.Classify(c as int) ==
              if c < 0x80 then Utf8.Ascii
              else if c & 0xE0 == 0xC0 then Utf8.Multi((c & 0x1F) as int, 1, 0x80)
              else if c & 0xF0 == 0xE0 then Utf8.Multi((c & 0x0F) as int, 2, 0x800)
              else if c & 0xF8 == 0xF0 then Utf8.Multi((c & 0x07) as int, 3, 0x1_0000)
              else Utf8.Stray
  {
    MachineBytes.MaskLead(c);
    MachineBytes.MaskFour(c);
  }

  /** It tests and masks a continuation byte. */
  lemma TailMasks(c: bv8)
    ensures Utf8.IsTail(c as int) <==> c & 0xC0 == 0x80
    ensures Utf8.Low(c as int, 0x40) == (c & 0x3F) as int
  {
    MachineBytes.MaskTail(c);
  }

  /** It shifts in the six data bits of one. */
  lemma ContinuationBits(cp: bv32, c: bv32)
    requires cp < 0x20_0000 && Value(c) < 0x100 && c < 0x100
    ensures Value((cp << 6) | (c & 0x3F)) == Value(cp) * 0x40 + Utf8.Low(Value(c), 0x40)
  {
    hide Value;
    assert Apart(cp << 6, Low6(c));
    ValueOfOr(cp << 6, Low6(c));
    Left6(cp);
    Masks(c);
  }

  /** The bytes of the writer. */
  function Lead2(cp: bv32): bv32 { 0xC0 | (cp >> 6) }
  function Lead3(cp: bv32): bv32 { 0xE0 | (cp >> 12) }
  function Lead4(cp: bv32): bv32 { 0xF0 | (cp >> 18) }
  function Tail(cp: bv32): bv32 { 0x80 | (cp & 0x3F) }

  function EncoderBytes(cp: bv32): seq<bv32> {
    if cp <= 0x7F then [cp]
    else if cp <= 0x7FF then [Lead2(cp), Tail(cp)]
    else if cp <= 0xFFFF then [Lead3(cp), Tail(cp >> 6), Tail(cp)]
    else [Lead4(cp), Tail(cp >> 12), Tail(cp >> 6), Tail(cp)]
  }

  function Values(ws: seq<bv32>): seq<nat> { seq(|ws|, i requires 0 <= i < |ws| => Value(ws[i])) }

  /** They are those of the model, for every word that stands for a scalar. */
  lemma EncoderBits(cp: bv32)
    requires cp <= 0x10_FFFF && !(0xD800 <= Value(cp) <= 0xDFFF)
    ensures Value(cp) <= 0x10_FFFF && Values(EncoderBytes(cp)) == Utf8.Write(Value(cp))
  {
    hide Value, Lead2, Lead3, Lead4, Tail;
    InRange(cp);
    Ranges(cp);
    LeadMarks(cp);
    TailMarks(cp);
  }

  lemma Ranges(cp: bv32)
    ensures cp <= 0x7F <==> Value(cp) <= 0x7F
    ensures cp <= 0x7FF <==> Value(cp) <= 0x7FF
    ensures cp <= 0xFFFF <==> Value(cp) <= 0xFFFF
  {
    hide Value;
    Below7(cp);
    Below11(cp);
    Below16(cp);
  }

  lemma InRange(cp: bv32)
    requires cp <= 0x10_FFFF
    ensures Value(cp) <= 0x10_FFFF
  {
    hide Value;
    Right16(cp);
    Planes(cp >> 16);
  }

  lemma Planes(w: bv32)
    requires w <= 0x10
    ensures Value(w) <= 0x10
  {
    hide Value;
    if w == 0x10 {
      Small();
      Left3(2);
    } else {
      assert Half(w >> 3) == 0;
      Right3(w);
      ValueOfHalf(w >> 3);
      OnlyZero(0);
    }
  }

  lemma LeadMarks(cp: bv32)
    ensures cp <= 0x7FF ==> Value(Lead2(cp)) == 0xC0 + Value(cp) / 0x40
    ensures cp <= 0xFFFF ==> Value(Lead3(cp)) == 0xE0 + Value(cp) / 0x1000
    ensures cp <= 0x10_FFFF ==> Value(Lead4(cp)) == 0xF0 + Value(cp) / 0x4_0000
  {
    hide Value;
    Marks();
    Right6(cp);
    Right12(cp);
    Right18(cp);
    if cp <= 0x7FF { ValueOfOr(0xC0, cp >> 6); }
    if cp <= 0xFFFF { ValueOfOr(0xE0, cp >> 12); }
    if cp <= 0x10_FFFF { ValueOfOr(0xF0, cp >> 18); }
  }

  lemma TailMark(w: bv32)
    requires w <= 0x10_FFFF
    ensures Value(Tail(w)) == 0x80 + Value(w) % 0x40
  {
    hide Value;
    Marks();
    Masks(w);
    ValueOfOr(0x80, w & 0x3F);
  }

  lemma TailMarks(cp: bv32)
    requires cp <= 0x10_FFFF
    ensures Value(Tail(cp)) == 0x80 + Value(cp) % 0x40
    ensures Value(Tail(cp >> 6)) == 0x80 + Value(cp) / 0x40 % 0x40
    ensures Value(Tail(cp >> 12)) == 0x80 + Value(cp) / 0x1000 % 0x40
  {
    hide Value, Tail;
    assert cp >> 6 <= 0x10_FFFF && cp >> 12 <= 0x10_FFFF;
    TailMark(cp);
    TailMark(cp >> 6);
    TailMark(cp >> 12);
    Right6(cp);
    Right12(cp);
  }

  /** A surrogate is its base and ten bits. */
  lemma OffsetBits(w: bv32, base: bv32)
    requires (base == 0xD800 || base == 0xDC00) && w < 0x400
    ensures base + w == Or(base, w) && Apart(base, w) && Low10(w) == w && Fits(w)
  {
  }

  lemma Offset(w: bv32, base: bv32)
    requires (base == 0xD800 || base == 0xDC00) && w < 0x400
    ensures Value(base + w) == Value(base) + Value(w) && Value(w) < 0x400
  {
    hide Value, Or, Apart, Low10, Fits;
    OffsetBits(w, base);
    ValueOfOr(base, w);
    Masks(w);
  }

  /** Combining a surrogate pair, and splitting a scalar into one. */
  function Combine(high: bv32, low: bv32): bv32 { 0x1_0000 + (((high - 0xD800) << 10) | (low - 0xDC00)) }
  function High(cp: bv32): bv32 { 0xD800 + ((cp - 0x1_0000) >> 10) }
  function Low(cp: bv32): bv32 { 0xDC00 + ((cp - 0x1_0000) & 0x3FF) }

  lemma SurrogateBits(high: bv32, low: bv32)
    requires 0xD800 <= high <= 0xDBFF && 0xDC00 <= low <= 0xDFFF
    ensures IsHigh(Value(high)) && IsLow(Value(low))
    ensures Value(Combine(high, low)) == Utf16.Combined(Value(high), Value(low))
  {
    hide Value, Combine, Pair;
    var h, l := Digits(high, low);
    PairValue(h, l);
  }

  lemma Digits(high: bv32, low: bv32) returns (h: bv32, l: bv32)
    requires 0xD800 <= high <= 0xDBFF && 0xDC00 <= low <= 0xDFFF
    ensures h < 0x400 && l < 0x400 && Combine(high, low) == Pair(h, l) + 0x1_0000
    ensures Value(high) == 0xD800 + Value(h) && Value(h) < 0x400
    ensures Value(low) == 0xDC00 + Value(l) && Value(l) < 0x400
  {
    hide Value, Combine, Pair;
    h, l := DigitBits(high, low);
    Bases();
    Offset(h, 0xD800);
    Offset(l, 0xDC00);
  }

  lemma DigitBits(high: bv32, low: bv32) returns (h: bv32, l: bv32)
    requires 0xD800 <= high <= 0xDBFF && 0xDC00 <= low <= 0xDFFF
    ensures h < 0x400 && l < 0x400 && Combine(high, low) == Pair(h, l) + 0x1_0000
    ensures high == 0xD800 + h && low == 0xDC00 + l
  {
    hide Combine, Pair;
    h, l := high - 0xD800, low - 0xDC00;
    TenDigits(high, low);
    TakenOff(high, 0xD800);
    TakenOff(low, 0xDC00);
    CombineBits(high, low);
  }

  lemma TenDigits(high: bv32, low: bv32)
    requires 0xD800 <= high <= 0xDBFF && 0xDC00 <= low <= 0xDFFF
    ensures high - 0xD800 < 0x400 && low - 0xDC00 < 0x400
  {
  }

  lemma TakenOff(w: bv32, base: bv32)
    ensures base + (w - base) == w
  {
  }

  lemma CombineBits(high: bv32, low: bv32)
    ensures Combine(high, low) == Pair(high - 0xD800, low - 0xDC00) + 0x1_0000
  {
  }

  /** Two times ten digits, side by side. */
  function Pair(h: bv32, l: bv32): bv32 { (h << 10) | l }

  lemma PairBits(h: bv32, l: bv32)
    requires h < 0x400 && l < 0x400
    ensures Apart(h << 10, l) && Pair(h, l) == Or(h << 10, l) && Pair(h, l) < 0x10_0000
  {
  }

  lemma PairValue(h: bv32, l: bv32)
    requires h < 0x400 && l < 0x400
    ensures Value(Pair(h, l) + 0x1_0000) == Value(h) * 0x400 + Value(l) + 0x1_0000
  {
    hide Value, Or, Apart, Pair;
    PairBits(h, l);
    ValueOfOr(h << 10, l);
    Left10(h);
    NextPlane(Pair(h, l));
  }

  lemma SplitBits(cp: bv32)
    requires 0x1_0000 <= cp <= 0x10_FFFF
    ensures 0x1_0000 <= Value(cp) <= 0x10_FFFF
    ensures Utf16.Write(Value(cp)) == [Value(High(cp)), Value(Low(cp))]
  {
    hide Value, High, Low, Low10;
    var d := SplitFits(cp);
    InRange(cp);
    SplitValue(d);
  }

  lemma SplitValue(d: bv32)
    requires d < 0x10_0000
    ensures Value(d + 0x1_0000) == Value(d) + 0x1_0000
    ensures Value(0xD800 + (d >> 10)) == 0xD800 + Value(d) / 0x400
    ensures Value(0xDC00 + Low10(d)) == 0xDC00 + Value(d) % 0x400
  {
    hide Value, Low10;
    NextPlane(d);
    Bases();
    Right10(d);
    TenBits(d);
    Offset(d >> 10, 0xD800);
    Offset(Low10(d), 0xDC00);
    Masks(d);
  }

  lemma TenBits(d: bv32)
    requires d < 0x10_0000
    ensures d >> 10 < 0x400 && Low10(d) < 0x400 && Fits(d)
  {
  }

  lemma SplitFits(cp: bv32) returns (d: bv32)
    requires 0x1_0000 <= cp <= 0x10_FFFF
    ensures d < 0x10_0000 && d + 0x1_0000 == cp
    ensures High(cp) == 0xD800 + (d >> 10) && Low(cp) == 0xDC00 + Low10(d)
  {
    d := cp - 0x1_0000;
  }
}
