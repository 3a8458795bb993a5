/** UTF-8 as qjs_util.c writes and reads it, and the grammar of section 4 of RFC 3629 that
    it is compared with. */
module Utf8 {
  import opened Unicode

  // ---- the writer ---------------------------------------------------------------------

  function Length(cp: Scalar): (n: nat)
    ensures n == |Write(cp)|
  {
    if cp <= 0x7F then 1 else if cp <= 0x7FF then 2 else if cp <= 0xFFFF then 3 else 4
  }

  function Write(cp: Scalar): (b: seq<Byte>)
    ensures 1 <= |b| <= 4
  {
    if cp <= 0x7F then
      [cp]
    else if cp <= 0x7FF then
      [0xC0 + cp / 0x40, 0x80 + cp % 0x40]
    else if cp <= 0xFFFF then
      [0xE0 + cp / 0x1000, 0x80 + cp / 0x40 % 0x40, 0x80 + cp % 0x40]
    else
      [0xF0 + cp / 0x4_0000, 0x80 + cp / 0x1000 % 0x40, 0x80 + cp / 0x40 % 0x40, 0x80 + cp % 0x40]
  }

  function WriteAll(cps: seq<Scalar>): seq<Byte> {
    if cps == [] then [] else Write(cps[0]) + WriteAll(cps[1..])
  }

  // ---- the reader ---------------------------------------------------------------------

  /** What the first byte of a sequence announces. */
  datatype Lead = Ascii | Multi(bits: int, extra: nat, least: int) | Stray

  function Low(c: Byte, modulus: int): int
    requires modulus > 0
  {
    (c as int) % modulus
  }

  function Classify(c: Byte): Lead {
    if c < 0x80 then Ascii
    else if 0xC0 <= c <= 0xDF then Multi(Low(c, 0x20), 1, 0x80)
    else if 0xE0 <= c <= 0xEF then Multi(Low(c, 0x10), 2, 0x800)
    else if 0xF0 <= c <= 0xF7 then Multi(Low(c, 0x08), 3, 0x1_0000)
    else Stray
  }

  predicate IsTail(c: Byte) { 0x80 <= c <= 0xBF }

  /** Where the continuation bytes lead: a value, or the first byte that does not continue. */
  datatype Tail = Value(cp: int) | BadAt(i: nat)

  function ReadTail(b: seq<Byte>, i: nat, extra: nat, cp: int): (t: Tail)
    requires i + extra <= |b|
    ensures t.BadAt? ==> i <= t.i < i + extra && !IsTail(b[t.i])
    ensures t.Value? ==> forall j :: i <= j < i + extra ==> IsTail(b[j])
    decreases extra
  {
    if extra == 0 then Value(cp)
    else if !IsTail(b[i]) then BadAt(i)
    else ReadTail(b, i + 1, extra - 1, cp * 0x40 + Low(b[i], 0x40))
  }

  /** One step of the decoder. A byte that fails to continue a sequence is consumed with it;
      a sequence cut short by the end of the input costs only its first byte. */
  function Read(b: seq<Byte>): (s: Step)
    requires b != []
    ensures 1 <= s.size <= 4 && s.size <= |b|
  {
    match Classify(b[0])
    case Ascii => Step(b[0], 1)
    case Stray => Step(REPLACEMENT, 1)
    case Multi(bits, extra, least) =>
      if 1 + extra > |b| then Step(REPLACEMENT, 1)
      else match ReadTail(b, 1, extra, bits)
        case BadAt(i) => Step(REPLACEMENT, i + 1)
        case Value(cp) =>
          Step(if cp < least || cp > 0x10FFFF || 0xD800 <= cp <= 0xDFFF then REPLACEMENT else cp,
               1 + extra)
  }

  function Scan(b: seq<Byte>): seq<Scalar> {
    if b == [] then [] else [Read(b).cp] + Scan(b[Read(b).size..])
  }

  // ---- section 4 of RFC 3629 ----------------------------------------------------------

  predicate Between(b: seq<Byte>, i: nat, low: int, high: int) {
    i < |b| && low <= b[i] <= high
  }

  /** The size of the UTF8-char production that `b` starts with, or 0 if there is none. */
  function CharSize(b: seq<Byte>): nat {
    if Between(b, 0, 0x00, 0x7F) then 1
    else if Between(b, 0, 0xC2, 0xDF) && Between(b, 1, 0x80, 0xBF) then 2
    else if Between(b, 2, 0x80, 0xBF)
         && (|| (Between(b, 0, 0xE0, 0xE0) && Between(b, 1, 0xA0, 0xBF))
             || (Between(b, 0, 0xE1, 0xEC) && Between(b, 1, 0x80, 0xBF))
             || (Between(b, 0, 0xED, 0xED) && Between(b, 1, 0x80, 0x9F))
             || (Between(b, 0, 0xEE, 0xEF) && Between(b, 1, 0x80, 0xBF))) then 3
    else if Between(b, 2, 0x80, 0xBF) && Between(b, 3, 0x80, 0xBF)
         && (|| (Between(b, 0, 0xF0, 0xF0) && Between(b, 1, 0x90, 0xBF))
             || (Between(b, 0, 0xF1, 0xF3) && Between(b, 1, 0x80, 0xBF))
             || (Between(b, 0, 0xF4, 0xF4) && Between(b, 1, 0x80, 0x8F))) then 4
    else 0
  }

  /** UTF8-octets: a sequence of UTF8-char productions. */
  predicate WellFormed(b: seq<Byte>) {
    b == [] || (0 < CharSize(b) <= |b| && WellFormed(b[CharSize(b)..]))
  }

  // ---- one step against the grammar ---------------------------------------------------

  /** The value that two or three continuation bytes build. */
  lemma TailValue(b: seq<Byte>, extra: nat, bits: int)
    requires 1 <= extra <= 3 && 1 + extra <= |b|
    ensures var t := ReadTail(b, 1, extra, bits);
            && (t.Value? <==> forall j :: 1 <= j < 1 + extra ==> IsTail(b[j]))
            && (t.Value? ==>
                  t.cp == if extra == 1 then bits * 0x40 + Low(b[1], 0x40)
                          else if extra == 2 then (bits * 0x40 + Low(b[1], 0x40)) * 0x40 + Low(b[2], 0x40)
                          else ((bits * 0x40 + Low(b[1], 0x40)) * 0x40 + Low(b[2], 0x40)) * 0x40 + Low(b[3], 0x40))
  {
    var t1 := ReadTail(b, 1, extra, bits);
    if IsTail(b[1]) && extra >= 2 {
      var t2 := ReadTail(b, 2, extra - 1, bits * 0x40 + Low(b[1], 0x40));
      if IsTail(b[2]) && extra >= 3 {
        var t3 := ReadTail(b, 3, extra - 2, (bits * 0x40 + Low(b[1], 0x40)) * 0x40 + Low(b[2], 0x40));
      }
    }
  }

  /** Six bits at a time: appending a digit and taking it off again. */
  lemma Digit(x: int, y: int)
    requires 0 <= x && 0 <= y < 0x40
    ensures (x * 0x40 + y) / 0x40 == x && (x * 0x40 + y) % 0x40 == y
  {
  }

  /** The positions that the writer shifts to are successive digits in base 64. */
  lemma Shifts(cp: int)
    requires 0 <= cp
    ensures cp / 0x1000 == cp / 0x40 / 0x40 && cp / 0x4_0000 == cp / 0x40 / 0x40 / 0x40
  {
  }

  /** The value that the bytes of an encoded scalar spell. */
  function Spelled(b: seq<Byte>): int
    requires 1 <= |b| <= 4
  {
    match |b|
    case 1 => b[0]
    case 2 => Low(b[0], 0x20) * 0x40 + Low(b[1], 0x40)
    case 3 => (Low(b[0], 0x10) * 0x40 + Low(b[1], 0x40)) * 0x40 + Low(b[2], 0x40)
    case _ => ((Low(b[0], 0x08) * 0x40 + Low(b[1], 0x40)) * 0x40 + Low(b[2], 0x40)) * 0x40 + Low(b[3], 0x40)
  }

  lemma SpelledWrite(cp: Scalar)
    ensures Spelled(Write(cp)) == cp
  {
    if cp > 0xFFFF {
      SpelledWrite4(cp);
    } else if cp > 0x7FF {
      SpelledWrite3(cp);
    }
  }

  lemma SpelledWrite3(cp: Scalar)
    requires 0x7FF < cp <= 0xFFFF
    ensures Spelled(Write(cp)) == cp
  {
    Shifts(cp);
    var b := Write(cp);
    assert Low(b[0], 0x10) == cp / 0x1000 && Low(b[1], 0x40) == cp / 0x40 % 0x40;
  }

  lemma SpelledWrite4(cp: Scalar)
    requires 0xFFFF < cp
    ensures Spelled(Write(cp)) == cp
  {
    Shifts(cp);
    var b := Write(cp);
    assert Low(b[0], 0x08) == cp / 0x4_0000 && Low(b[1], 0x40) == cp / 0x1000 % 0x40;
    assert Low(b[2], 0x40) == cp / 0x40 % 0x40;
  }

  lemma WriteSpelled2(b: seq<Byte>)
    requires |b| == 2 && CharSize(b) == 2
    ensures 0x80 <= Spelled(b) <= 0x7FF && Write(Spelled(b)) == b
  {
    Digit(Low(b[0], 0x20), Low(b[1], 0x40));
  }

  lemma WriteSpelled3(b: seq<Byte>)
    requires |b| == 3 && CharSize(b) == 3
    ensures 0x800 <= Spelled(b) <= 0xFFFF && !(0xD800 <= Spelled(b) <= 0xDFFF) && Write(Spelled(b)) == b
  {
    var high := Low(b[0], 0x10) * 0x40 + Low(b[1], 0x40);
    Digit(Low(b[0], 0x10), Low(b[1], 0x40));
    Digit(high, Low(b[2], 0x40));
    Shifts(Spelled(b));
  }

  /** The bounds on the first two bytes keep the value within the four-byte range. */
  lemma Range4(b: seq<Byte>)
    requires |b| == 4 && CharSize(b) == 4
    ensures 0x1_0000 <= Spelled(b) <= 0x10FFFF && 0xF0 <= b[0] <= 0xF7
    ensures IsTail(b[1]) && IsTail(b[2]) && IsTail(b[3])
  {
  }

  lemma WriteSpelled4(b: seq<Byte>)
    requires |b| == 4 && CharSize(b) == 4
    ensures 0x1_0000 <= Spelled(b) <= 0x10FFFF && Write(Spelled(b)) == b
  {
    Range4(b);
    hide CharSize;
    var top := Low(b[0], 0x08) * 0x40 + Low(b[1], 0x40);
    var high := top * 0x40 + Low(b[2], 0x40);
    Digit(Low(b[0], 0x08), Low(b[1], 0x40));
    Digit(top, Low(b[2], 0x40));
    Digit(high, Low(b[3], 0x40));
    var cp := Spelled(b);
    Shifts(cp);
    assert cp / 0x40 == high && cp / 0x1000 == top && cp / 0x4_0000 == Low(b[0], 0x08);
    SameDigits(b[0], 0xF0, 0x08);
    SameDigits(b[1], 0x80, 0x40);
    SameDigits(b[2], 0x80, 0x40);
    SameDigits(b[3], 0x80, 0x40);
  }

  lemma SameDigits(c: Byte, base: int, modulus: int)
    requires (base == 0xF0 && modulus == 0x08) || (base == 0x80 && modulus == 0x40)
    requires base <= c < base + modulus
    ensures c == base + Low(c, modulus)
  {
  }

  /** The grammar decides from the bytes of the character alone. */
  lemma CharSizeOfPrefix(b: seq<Byte>, n: nat)
    requires CharSize(b) <= n <= |b|
    ensures CharSize(b) == 0 || CharSize(b[..n]) == CharSize(b)
  {
  }

  /** Where the grammar finds a character, the reader takes exactly that character and
      returns the scalar whose encoding it is. */
  lemma ReadAccepts(b: seq<Byte>)
    requires b != [] && CharSize(b) > 0
    ensures CharSize(b) == Read(b).size
    ensures b[..Read(b).size] == Write(Read(b).cp)
  {
    var n := CharSize(b);
    var c := b[..n];
    CharSizeOfPrefix(b, n);
    match Classify(b[0])
    case Ascii =>
    case Stray =>
    case Multi(bits, extra, _) =>
      TailValue(b, extra, bits);
      if n == 2 { WriteSpelled2(c); } else if n == 3 { WriteSpelled3(c); } else { WriteSpelled4(c); }
  }

  /** Where the grammar finds none (overlong forms, surrogates, values above 0x10FFFF, stray
      or missing continuation bytes), the reader answers U+FFFD. */
  lemma ReadRejects(b: seq<Byte>)
    requires b != [] && CharSize(b) == 0
    ensures Read(b).cp == REPLACEMENT
    ensures Write(REPLACEMENT) != b[..Read(b).size]
  {
    ReadsReplacement(b);
    ReplacementIsChar(b);
  }

  lemma ReadsReplacement(b: seq<Byte>)
    requires b != [] && CharSize(b) == 0
    ensures Read(b).cp == REPLACEMENT
  {
    hide ReadTail;
    match Classify(b[0])
    case Ascii =>
    case Stray =>
    case Multi(bits, extra, _) =>
      if 1 + extra <= |b| {
        TailValue(b, extra, bits);
        if extra == 1 { } else if extra == 2 { } else { }
      }
  }

  lemma ReplacementIsChar(b: seq<Byte>)
    requires CharSize(b) == 0
    ensures !(Write(REPLACEMENT) <= b)
  {
    assert Write(REPLACEMENT) == [0xEF, 0xBF, 0xBD];
  }

  /** Whatever follows it, an encoded scalar is a character of the grammar. */
  lemma WriteIsChar(cp: Scalar, rest: seq<Byte>)
    ensures CharSize(Write(cp) + rest) == |Write(cp)|
  {
    Shifts(cp);
    var b := Write(cp) + rest;
    assert forall i :: 0 <= i < |Write(cp)| ==> b[i] == Write(cp)[i];
  }

  /** The reader undoes the writer, whatever follows. */
  lemma ReadWrite(cp: Scalar, rest: seq<Byte>)
    ensures Read(Write(cp) + rest) == Step(cp, Length(cp))
  {
    var b := Write(cp) + rest;
    WriteIsChar(cp, rest);
    ReadAccepts(b);
    WriteInjective(cp, Read(b).cp);
  }

  lemma WriteInjective(x: Scalar, y: Scalar)
    requires Write(x) == Write(y)
    ensures x == y
  {
    SpelledWrite(x);
    SpelledWrite(y);
  }

  /** Strict acceptance, in one statement: the reader returns `cp` for the bytes it consumed
      being the encoding of `cp`, or it returns U+FFFD for bytes that encode nothing. */
  lemma StrictAcceptance(b: seq<Byte>)
    requires b != []
    ensures var s := Read(b);
            && (b[..s.size] == Write(s.cp) <==> CharSize(b) > 0)
            && (CharSize(b) == 0 ==> s.cp == REPLACEMENT)
            && (CharSize(b) > 0 ==> CharSize(b) == s.size)
    ensures forall cp: Scalar :: Write(cp) <= b ==> Read(b) == Step(cp, Length(cp))
  {
    Accepted(b);
    if CharSize(b) == 0 { ReadRejects(b); NoPrefix(b); }
    forall cp: Scalar | Write(cp) <= b ensures Read(b) == Step(cp, Length(cp)) {
      var rest := b[|Write(cp)|..];
      assert b == Write(cp) + rest;
      ReadWrite(cp, rest);
    }
  }

  /** No encoding is a prefix of an input on which the grammar finds no character. */
  lemma NoPrefix(b: seq<Byte>)
    requires CharSize(b) == 0
    ensures forall cp: Scalar :: !(Write(cp) <= b)
  {
    forall cp: Scalar ensures !(Write(cp) <= b) {
      if Write(cp) <= b {
        assert b == Write(cp) + b[|Write(cp)|..];
        WriteIsChar(cp, b[|Write(cp)|..]);
      }
    }
  }

  // ---- whole sequences ----------------------------------------------------------------

  lemma ScanWrite(cp: Scalar, rest: seq<Byte>)
    ensures Scan(Write(cp) + rest) == [cp] + Scan(rest)
    ensures WellFormed(Write(cp) + rest) <==> WellFormed(rest)
  {
    var b := Write(cp) + rest;
    ReadWrite(cp, rest);
    WriteIsChar(cp, rest);
    assert b[|Write(cp)|..] == rest;
  }

  /** Encoded scalars are well-formed and scan back to themselves. */
  lemma {:induction false} ScanWriteAll(cps: seq<Scalar>, rest: seq<Byte>)
    ensures Scan(WriteAll(cps) + rest) == cps + Scan(rest)
    ensures WellFormed(WriteAll(cps) + rest) <==> WellFormed(rest)
  {
    hide Read, CharSize, Write;
    if cps == [] {
      assert WriteAll(cps) + rest == rest;
    } else {
      var tail := WriteAll(cps[1..]) + rest;
      ScanWriteAll(cps[1..], rest);
      ScanWrite(cps[0], tail);
      assert WriteAll(cps) + rest == Write(cps[0]) + tail;
      assert cps + Scan(rest) == [cps[0]] + (cps[1..] + Scan(rest));
    }
  }

  /** The first step on well-formed input takes one character, and leaves well-formed input. */
  lemma WellFormedRead(b: seq<Byte>)
    requires b != [] && WellFormed(b)
    ensures b == Write(Read(b).cp) + b[Read(b).size..] && WellFormed(b[Read(b).size..])
  {
    hide Read, CharSize, Write, Scan;
    Accepted(b);
    assert b == b[..Read(b).size] + b[Read(b).size..];
  }

  lemma WriteAllRead(b: seq<Byte>)
    requires b != []
    ensures WriteAll(Scan(b)) == Write(Read(b).cp) + WriteAll(Scan(b[Read(b).size..]))
  {
    hide Read, CharSize, Write, WellFormed;
    assert Scan(b)[1..] == Scan(b[Read(b).size..]);
  }

  lemma Accepted(b: seq<Byte>)
    requires b != []
    ensures b[..Read(b).size] == Write(Read(b).cp) <==> CharSize(b) > 0
    ensures CharSize(b) > 0 ==> CharSize(b) == Read(b).size
  {
    if CharSize(b) > 0 { ReadAccepts(b); } else { ReadRejects(b); }
  }

  /** Scanning and writing back gives the input exactly when the input was well-formed. */
  lemma {:induction false} WriteAllScan(b: seq<Byte>)
    ensures WriteAll(Scan(b)) == b <==> WellFormed(b)
  {
    if WriteAll(Scan(b)) == b {
      ScanWriteAll(Scan(b), []);
      assert WriteAll(Scan(b)) + [] == b;
    } else if WellFormed(b) {
      WellFormedRead(b);
      WriteAllRead(b);
      WriteAllScan(b[Read(b).size..]);
    }
  }

  /** The number of code units a scalar takes is at most the number of bytes it was read from. */
  lemma ReadIsShort(b: seq<Byte>)
    requires b != []
    ensures Read(b).cp > 0xFFFF ==> Read(b).size == 4
  {
    if CharSize(b) > 0 { ReadAccepts(b); } else { ReadRejects(b); }
  }

  lemma ScanStep(b: seq<Byte>)
    requires b != []
    ensures Scan(b) == [Read(b).cp] + Scan(b[Read(b).size..])
  {
    hide Read;
  }

  // ---- resynchronisation --------------------------------------------------------------

  /** A character is one byte that cannot continue another, followed by bytes that do. */
  lemma CharShape(b: seq<Byte>)
    requires CharSize(b) > 0
    ensures CharSize(b) <= |b| && !IsTail(b[0])
    ensures forall j :: 1 <= j < CharSize(b) ==> IsTail(b[j])
  {
  }

  /** Stray continuation bytes are consumed one at a time. */
  lemma {:induction false} SkipTail(t: seq<Byte>, rest: seq<Byte>) returns (head: seq<Scalar>)
    requires forall j :: 0 <= j < |t| ==> IsTail(t[j])
    ensures Scan(t + rest) == head + Scan(rest)
    ensures head == seq(|t|, _ => REPLACEMENT)
  {
    if t == [] {
      assert t + rest == rest;
      head := [];
    } else {
      assert (t + rest)[1..] == t[1..] + rest;
      var more := SkipTail(t[1..], rest);
      head := [REPLACEMENT] + more;
    }
  }

  /** Whatever bytes come first, one whole character is enough to bring the decoder back in
      step: the output for anything after it is unchanged. */
  lemma {:induction false} Resynchronises(p: seq<Byte>, c: seq<Byte>, rest: seq<Byte>)
    returns (head: seq<Scalar>)
    requires c != [] && CharSize(c) == |c|
    ensures Scan(p + c + rest) == head + Scan(rest)
    decreases |p|
  {
    var b := p + c + rest;
    CharShape(c);
    if p == [] {
      assert b == c + rest;
      WriteAllScanChar(c, rest);
      assert b[|c|..] == rest;
      head := [Read(b).cp];
    } else {
      var s := Read(b);
      StraddleTakesOne(p, c, rest);
      if s.size <= |p| {
        assert b[s.size..] == p[s.size..] + c + rest;
        var more := Resynchronises(p[s.size..], c, rest);
        head := [s.cp] + more;
      } else {
        assert b[s.size..] == c[1..] + rest;
        var more := SkipTail(c[1..], rest);
        head := [s.cp] + more;
      }
    }
  }

  /** A step that starts before a character takes at most that character's first byte. */
  lemma StraddleTakesOne(p: seq<Byte>, c: seq<Byte>, rest: seq<Byte>)
    requires p != [] && c != [] && !IsTail(c[0])
    ensures Read(p + c + rest).size <= |p| + 1
  {
    var b := p + c + rest;
    assert b[|p|] == c[0];
    match Classify(b[0])
    case Ascii =>
    case Stray =>
    case Multi(bits, extra, _) =>
      if 1 + extra <= |b| {
        TailStopsAt(b, 1, extra, bits, |p|);
      }
  }

  /** The reader never passes a byte that is not a continuation byte. */
  lemma {:induction false} TailStopsAt(b: seq<Byte>, i: nat, extra: nat, cp: int, stop: nat)
    requires i + extra <= |b| && i <= stop < |b| && !IsTail(b[stop])
    ensures var t := ReadTail(b, i, extra, cp);
            if t.BadAt? then t.i <= stop else i + extra <= stop
    decreases extra
  {
    if extra > 0 && IsTail(b[i]) {
      TailStopsAt(b, i + 1, extra - 1, cp * 0x40 + Low(b[i], 0x40), stop);
    }
  }

  // ---- what survives damage -----------------------------------------------------------

  /** The reader, started at the front, comes to stand exactly before the n-th byte. */
  predicate StepsAt(b: seq<Byte>, n: nat)
    requires n <= |b|
    decreases n
  {
    n == 0 || (Read(b).size <= n && StepsAt(b[Read(b).size..], n - Read(b).size))
  }

  /** How many continuation bytes follow in a row from `i`, `most` at most. */
  function TailCount(p: seq<Byte>, i: nat, most: nat): (n: nat)
    requires i <= |p|
    ensures n <= most && i + n <= |p|
    ensures forall j :: i <= j < i + n ==> IsTail(p[j])
    ensures n < most && i + n < |p| ==> !IsTail(p[i + n])
    decreases most
  {
    if most == 0 || i == |p| || !IsTail(p[i]) then 0 else 1 + TailCount(p, i + 1, most - 1)
  }

  /** How many continuation bytes a byte announces. */
  function Announced(c: Byte): nat {
    match Classify(c)
    case Ascii => 0
    case Stray => 0
    case Multi(_, extra, _) => extra
  }

  /** With `more` bytes to come, `p` leaves the reader inside a sequence: it ends in a lead byte
      and continuation bytes that want another, and the input is long enough for it to look. */
  predicate Dangling(p: seq<Byte>, more: nat)
    decreases |p|
  {
    if p == [] then false
    else
      var extra := Announced(p[0]);
      if 1 + extra > |p| + more then Dangling(p[1..], more)
      else
        var n := TailCount(p, 1, extra);
        if n == extra then Dangling(p[1 + extra..], more)
        else if 1 + n == |p| then true
        else Dangling(p[n + 2..], more)
  }

  /** How far one step goes, on any input: past the first byte only if the input is too short for
      what that byte announces; past the whole announced sequence, whatever value it spells; or
      past the first byte that fails to continue it. */
  lemma StepSize(b: seq<Byte>)
    requires b != []
    ensures var extra := Announced(b[0]);
            Read(b).size ==
              if 1 + extra > |b| then 1
              else if TailCount(b, 1, extra) == extra then 1 + extra
              else TailCount(b, 1, extra) + 2
  {
    match Classify(b[0])
    case Ascii =>
    case Stray =>
    case Multi(bits, extra, _) =>
      if 1 + extra <= |b| { TailEnd(b, 1, extra, bits); }
  }

  lemma {:induction false} TailEnd(b: seq<Byte>, i: nat, extra: nat, cp: int)
    requires i + extra <= |b|
    ensures var t := ReadTail(b, i, extra, cp);
            var n := TailCount(b, i, extra);
            if n == extra then t.Value? else t == BadAt(i + n)
    decreases extra
  {
    if extra > 0 && IsTail(b[i]) { TailEnd(b, i + 1, extra - 1, cp * 0x40 + Low(b[i], 0x40)); }
  }

  /** What follows `p` and continues nothing does not count. */
  lemma {:induction false} TailCountOfPrefix(p: seq<Byte>, q: seq<Byte>, i: nat, most: nat)
    requires q != [] && !IsTail(q[0]) && i <= |p|
    ensures TailCount(p + q, i, most) == TailCount(p, i, most)
    decreases most
  {
    var b := p + q;
    if most > 0 && i < |p| && IsTail(b[i]) { TailCountOfPrefix(p, q, i + 1, most - 1); }
  }

  lemma StepSizeOfPrefix(p: seq<Byte>, q: seq<Byte>)
    requires p != [] && q != [] && !IsTail(q[0])
    ensures var extra := Announced(p[0]);
            Read(p + q).size ==
              if 1 + extra > |p| + |q| then 1
              else if TailCount(p, 1, extra) == extra then 1 + extra
              else TailCount(p, 1, extra) + 2
  {
    hide Read;
    assert (p + q)[0] == p[0];
    StepSize(p + q);
    TailCountOfPrefix(p, q, 1, Announced(p[0]));
  }

  /** Whether the reader is in step after `p` is decided by `p` and the number of bytes that
      follow, however `p` is damaged. */
  lemma {:induction false} InStepIff(p: seq<Byte>, q: seq<Byte>)
    requires q != [] && !IsTail(q[0])
    ensures StepsAt(p + q, |p|) <==> !Dangling(p, |q|)
    decreases |p|
  {
    hide Read;
    if p != [] {
      var n := Read(p + q).size;
      StepSizeOfPrefix(p, q);
      if n <= |p| {
        assert (p + q)[n..] == p[n..] + q;
        InStepIff(p[n..], q);
      }
    }
  }

  /** In step, the input is read as its two parts. */
  lemma {:induction false} InStepSplits(b: seq<Byte>, n: nat) returns (head: seq<Scalar>)
    requires n <= |b| && StepsAt(b, n)
    ensures Scan(b) == head + Scan(b[n..])
    decreases n
  {
    hide Read, Scan;
    if n == 0 {
      assert b[0..] == b;
      head := [];
    } else {
      ScanStep(b);
      var m := Read(b).size;
      var more := InStepSplits(b[m..], n - m);
      assert b[m..][n - m..] == b[n..];
      head := [Read(b).cp] + more;
    }
  }

  /** Out of step, a character turns into replacements, and what follows it is read as ever. */
  lemma {:induction false} OutOfStepLoses(p: seq<Byte>, c: seq<Byte>, rest: seq<Byte>)
    returns (head: seq<Scalar>)
    requires c != [] && CharSize(c) == |c| && !StepsAt(p + c + rest, |p|)
    ensures Scan(p + c + rest) == head + [REPLACEMENT] + Scan(rest)
    decreases |p|
  {
    hide Read, CharSize, Scan;
    var b := p + c + rest;
    var s := Read(b);
    ScanStep(b);
    CharShape(c);
    StraddleTakesOne(p, c, rest);
    if s.size <= |p| {
      assert b[s.size..] == p[s.size..] + c + rest;
      var more := OutOfStepLoses(p[s.size..], c, rest);
      head := [s.cp] + more;
    } else {
      assert p + (c + rest) == b && b[s.size..] == c[1..] + rest;
      StraddleIsBad(p, c + rest);
      var more := SkipTail(c[1..], rest);
      head := seq(|c| - 1, _ => REPLACEMENT);
      assert [s.cp] + more == head + [REPLACEMENT];
    }
  }

  /** A step that takes a byte that continues nothing, but its own first one, has failed. */
  lemma StraddleIsBad(p: seq<Byte>, q: seq<Byte>)
    requires p != [] && q != [] && !IsTail(q[0]) && Read(p + q).size == |p| + 1
    ensures Read(p + q).cp == REPLACEMENT
  {
    hide CharSize, Write;
    var b := p + q;
    StepSizeOfPrefix(p, q);
    if CharSize(b) > 0 {
      ReadAccepts(b);
      CharShape(b);
    } else {
      ReadRejects(b);
    }
  }

  /** A whole character is taken whole, whatever follows it. */
  lemma WriteAllScanChar(c: seq<Byte>, rest: seq<Byte>)
    requires c != [] && CharSize(c) == |c|
    ensures Read(c + rest).size == |c| && Write(Read(c + rest).cp) == c
  {
    ReadAccepts(c);
    assert c[..|c|] == c;
    ReadWrite(Read(c).cp, rest);
  }

  // ---- all of the output --------------------------------------------------------------

  /** How many steps begin before the n-th byte. */
  function StepCount(b: seq<Byte>, n: nat): nat
    requires n <= |b|
  {
    if n == 0 then 0 else StepCount(b, n - 1) + if StepsAt(b, n - 1) then 1 else 0
  }

  lemma {:induction false} StepCountShifts(b: seq<Byte>, n: nat)
    requires b != [] && Read(b).size <= n <= |b|
    ensures StepCount(b, n) == 1 + StepCount(b[Read(b).size..], n - Read(b).size)
  {
    hide Read;
    var m := Read(b).size;
    if n == m {
      OnlyOneStep(b, m);
    } else {
      StepCountShifts(b, n - 1);
    }
  }

  lemma {:induction false} OnlyOneStep(b: seq<Byte>, n: nat)
    requires b != [] && 1 <= n <= Read(b).size
    ensures StepCount(b, n) == 1
  {
    hide Read;
    if n > 1 { OnlyOneStep(b, n - 1); }
  }

  /** The output, scalar by scalar: one for every place where the reader comes to stand, in
      order, and it is what the reader finds there. */
  lemma {:induction false} ScanAt(b: seq<Byte>, n: nat)
    requires n < |b| && StepsAt(b, n)
    ensures StepCount(b, n) < |Scan(b)| && Scan(b)[StepCount(b, n)] == Read(b[n..]).cp
    decreases n
  {
    hide Read, Scan;
    ScanStep(b);
    if n == 0 {
      assert b[0..] == b;
    } else {
      var m := Read(b).size;
      ScanAt(b[m..], n - m);
      StepCountShifts(b, n);
      assert b[m..][n - m..] == b[n..];
    }
  }

  lemma {:induction false} ScanSize(b: seq<Byte>)
    ensures |Scan(b)| == StepCount(b, |b|)
  {
    hide Read;
    if b != [] {
      var m := Read(b).size;
      ScanSize(b[m..]);
      StepCountShifts(b, |b|);
    }
  }

  // ---- forms that are complete but need not be characters -----------------------------

  /** A first byte and exactly the continuation bytes that it announces: a character, or an
      overlong form, a surrogate, a value above 0x10FFFF, or a stray byte. */
  predicate Complete(c: seq<Byte>) {
    c != [] && |c| == 1 + Announced(c[0]) && forall i :: 1 <= i < |c| ==> IsTail(c[i])
  }

  /** A complete form is taken whole, whatever follows: as its scalar if it is a character, as
      one U+FFFD if it is not. */
  lemma ReadComplete(c: seq<Byte>, rest: seq<Byte>)
    requires Complete(c)
    ensures Read(c + rest) == Step(Read(c).cp, |c|)
    ensures CharSize(c) == |c| ==> Write(Read(c).cp) == c
    ensures CharSize(c) != |c| ==> Read(c).cp == REPLACEMENT
  {
    hide Write;
    FormSize(c, rest);
    FormSize(c, []);
    assert c + [] == c;
    FormCharacter(c, rest);
    FormCharacter(c, []);
    if CharSize(c) == |c| {
      WriteAllScanChar(c, rest);
      WriteAllScanChar(c, []);
      WriteInjective(Read(c + rest).cp, Read(c).cp);
    } else {
      ReadRejects(c + rest);
      ReadRejects(c);
    }
  }

  lemma FormSize(c: seq<Byte>, rest: seq<Byte>)
    requires Complete(c)
    ensures Read(c + rest).size == |c|
  {
    hide Read;
    var b := c + rest;
    StepSize(b);
    assert forall i :: 1 <= i < |c| ==> IsTail(b[i]);
  }

  /** The grammar decides of a complete form whether it is a character, not of what follows. */
  lemma FormCharacter(c: seq<Byte>, rest: seq<Byte>)
    requires Complete(c) && Read(c + rest).size == |c|
    ensures CharSize(c + rest) > 0 <==> CharSize(c) == |c|
  {
    hide Read, Write;
    var b := c + rest;
    if CharSize(b) > 0 {
      ReadAccepts(b);
      CharSizeOfPrefix(b, |c|);
      assert b[..|c|] == c;
    }
    if CharSize(c) == |c| { SameCharSize(c, rest); }
  }

  lemma SameCharSize(c: seq<Byte>, rest: seq<Byte>)
    requires CharSize(c) > 0
    ensures CharSize(c + rest) == CharSize(c)
  {
  }

  function Join(cs: seq<seq<Byte>>): seq<Byte> {
    if cs == [] then [] else cs[0] + Join(cs[1..])
  }

  /** Complete forms in a row are read one by one. */
  lemma {:induction false} ScanForms(cs: seq<seq<Byte>>)
    requires forall k :: 0 <= k < |cs| ==> Complete(cs[k])
    ensures |Scan(Join(cs))| == |cs|
    ensures forall k :: 0 <= k < |cs| ==>
              if CharSize(cs[k]) == |cs[k]| then Write(Scan(Join(cs))[k]) == cs[k]
              else Scan(Join(cs))[k] == REPLACEMENT
  {
    hide Read, Write, CharSize, Scan, Complete;
    if cs == [] {
      ScanSize([]);
    } else {
      var b := Join(cs);
      assert cs[0] != [] by { CompleteIsSome(cs[0]); }
      ReadComplete(cs[0], Join(cs[1..]));
      ScanStep(b);
      assert b[|cs[0]|..] == Join(cs[1..]);
      ScanForms(cs[1..]);
    }
  }

  lemma CompleteIsSome(c: seq<Byte>)
    requires Complete(c)
    ensures c != []
  {
  }
}
