/** The two conversions of qjs_util.c as functions on whole strings, and how they relate. */
module Codec {
  import opened Unicode
  import Utf8
  import Utf16

  /** jstring_to_utf8. */
  function Encode(s: seq<Unit>): seq<Byte> { Utf8.WriteAll(Utf16.Scan(s)) }

  /** utf8_to_jstring. */
  function Decode(b: seq<Byte>): seq<Unit> { Utf16.WriteAll(Utf8.Scan(b)) }

  /** From Java to QuickJS and back: only unpaired surrogates change, each into U+FFFD. */
  lemma RoundTripFromJava(s: seq<Unit>)
    ensures Utf8.WellFormed(Encode(s))
    ensures Decode(Encode(s)) == Utf16.Sanitised(s)
    ensures |Decode(Encode(s))| == |s|
    ensures Decode(Encode(s)) == s <==> Utf16.WellFormed(s)
  {
    hide Utf8.Read, Utf8.CharSize, Utf8.Write, Utf16.Unpaired;
    var cps := Utf16.Scan(s);
    Utf8.ScanWriteAll(cps, []);
    assert Utf8.WriteAll(cps) + [] == Encode(s) && cps + Utf8.Scan([]) == cps;
    Utf16.WriteAllScan(s);
    Utf16.SanitisedIsSameOnlyIfWellFormed(s);
  }

  /** From QuickJS to Java and back: the result is well-formed, is the input exactly when that
      was well-formed, and a second trip changes nothing. */
  lemma RoundTripFromBytes(b: seq<Byte>)
    ensures Utf16.WellFormed(Decode(b))
    ensures Utf8.WellFormed(Encode(Decode(b)))
    ensures Encode(Decode(b)) == b <==> Utf8.WellFormed(b)
    ensures Encode(Decode(Encode(Decode(b)))) == Encode(Decode(b))
  {
    var cps := Utf8.Scan(b);
    Utf16.WriteAllWellFormed(cps);
    Utf16.ScanWriteAll(cps);
    Utf8.WriteAllScan(b);
    RoundTripFromJava(Decode(b));
  }

  /** Different well-formed Java strings have different encodings, and every well-formed byte
      sequence is the encoding of some well-formed Java string. */
  lemma EncodeIsBijective(s: seq<Unit>, t: seq<Unit>, b: seq<Byte>)
    requires Utf16.WellFormed(s) && Utf16.WellFormed(t) && Utf8.WellFormed(b)
    ensures Encode(s) == Encode(t) ==> s == t
    ensures Utf16.WellFormed(Decode(b)) && Encode(Decode(b)) == b
  {
    RoundTripFromJava(s);
    RoundTripFromJava(t);
    RoundTripFromBytes(b);
  }

  /** Damage does not spread: after any bytes at all and one whole character, the decoded text
      ends with what the remaining bytes decode to. */
  lemma DecoderResynchronises(p: seq<Byte>, c: seq<Byte>, rest: seq<Byte>) returns (head: seq<Unit>)
    requires c != [] && Utf8.CharSize(c) == |c|
    ensures Decode(p + c + rest) == head + Decode(rest)
  {
    var cps := Utf8.Resynchronises(p, c, rest);
    Utf16.WriteAllAppend(cps, Utf8.Scan(rest));
    head := Utf16.WriteAll(cps);
  }

  predicate EndsWith<T(==)>(s: seq<T>, t: seq<T>) {
    |t| <= |s| && s[|s| - |t|..] == t
  }

  /** Exactly when that character itself survives: the reader is in step when it comes to it, and
      the text ends with what the character and the rest decode to, if and only if the bytes
      before it do not leave the reader waiting for more. (Of a lost U+FFFD the text cannot tell.) */
  lemma CharacterSurvivesIff(p: seq<Byte>, c: seq<Byte>, rest: seq<Byte>)
    requires c != [] && Utf8.CharSize(c) == |c|
    ensures Utf8.StepsAt(p + c + rest, |p|) <==> !Utf8.Dangling(p, |c| + |rest|)
    ensures !Utf8.Dangling(p, |c| + |rest|) ==> EndsWith(Decode(p + c + rest), Decode(c + rest))
    ensures c != Utf8.Write(REPLACEMENT) && EndsWith(Decode(p + c + rest), Decode(c + rest)) ==>
              !Utf8.Dangling(p, |c| + |rest|)
  {
    hide Utf8.Read, Utf8.CharSize, Utf8.Dangling, Utf8.StepsAt, Utf8.Write;
    assert p + (c + rest) == p + c + rest;
    Utf8.CharShape(c);
    Utf8.InStepIff(p, c + rest);
    if Utf8.StepsAt(p + c + rest, |p|) {
      KeptCharacter(p, c + rest);
    } else if c != Utf8.Write(REPLACEMENT) {
      // a U+FFFD stands where its last unit would have been
      var tail := Decode(rest);
      var head := Utf8.OutOfStepLoses(p, c, rest);
      Utf16.WriteAllAppend(head + [REPLACEMENT], Utf8.Scan(rest));
      Utf16.WriteAllAppend(head, [REPLACEMENT]);
      LastUnit(REPLACEMENT);
      Utf8.WriteAllScanChar(c, rest);
      DecodeStep(c + rest);
      var cp := Utf8.Read(c + rest).cp;
      assert (c + rest)[|c|..] == rest;
      LastUnit(cp);
      var lost := Decode(p + c + rest);
      var kept := Decode(c + rest);
      assert lost[|lost| - |tail| - 1] == REPLACEMENT;
      assert kept[|kept| - |tail| - 1] != REPLACEMENT;
    }
  }

  /** What comes after the reader is in step is decoded on its own. */
  lemma KeptCharacter(p: seq<Byte>, q: seq<Byte>)
    requires Utf8.StepsAt(p + q, |p|)
    ensures EndsWith(Decode(p + q), Decode(q))
  {
    hide Utf8.Read, Utf8.StepsAt;
    assert (p + q)[|p|..] == q;
    var head := Utf8.InStepSplits(p + q, |p|);
    Utf16.WriteAllAppend(head, Utf8.Scan(q));
  }

  /** The last unit written for a scalar is U+FFFD only for U+FFFD. */
  lemma LastUnit(cp: Scalar)
    ensures var u := Utf16.WriteAll([cp]);
            u == Utf16.Write(cp) && u != [] && (u[|u| - 1] == REPLACEMENT <==> cp == REPLACEMENT)
  {
    assert [cp][1..] == [];
  }

  /** A lead byte that wants one more swallows the letter that follows it; one that wants three
      more spares it when too few bytes follow. */
  lemma FirstCharacterCanBeLost()
    ensures Utf8.Dangling([0xC3], 1) && !Utf8.Dangling([0xF0], 1) && Utf8.Dangling([0xF0], 3)
    ensures !Utf8.Dangling([0x80], 1)
    ensures !EndsWith(Decode([0xC3] + [0x41] + []), Decode([0x41] + []))
  {
    var c: seq<Byte> := [0x41];
    assert Utf8.CharSize(c) == 1 && |Utf8.Write(REPLACEMENT)| == 3;
    CharacterSurvivesIff([0xC3], c, []);
  }

  /** A well-formed prefix decodes on its own. */
  lemma DecodeAfterWellFormed(p: seq<Byte>, rest: seq<Byte>)
    requires Utf8.WellFormed(p)
    ensures Decode(p + rest) == Decode(p) + Decode(rest)
  {
    var cps := Utf8.Scan(p);
    Utf8.WriteAllScan(p);
    Utf8.ScanWriteAll(cps, rest);
    Utf16.WriteAllAppend(cps, Utf8.Scan(rest));
  }

  /** What one step of the encoder adds. */
  lemma EncodeStep(s: seq<Unit>)
    requires s != []
    ensures Encode(s) == Utf8.Write(Utf16.Read(s).cp) + Encode(s[Utf16.Read(s).size..])
  {
    var cps := Utf16.Scan(s);
    assert cps[0] == Utf16.Read(s).cp && cps[1..] == Utf16.Scan(s[Utf16.Read(s).size..]);
  }

  /** What one step of the decoder adds. */
  lemma DecodeStep(b: seq<Byte>)
    requires b != []
    ensures Decode(b) == Utf16.Write(Utf8.Read(b).cp) + Decode(b[Utf8.Read(b).size..])
  {
    var cps := Utf8.Scan(b);
    assert cps[0] == Utf8.Read(b).cp && cps[1..] == Utf8.Scan(b[Utf8.Read(b).size..]);
  }

  /** Three bytes a code unit are enough for the encoder. */
  lemma {:induction false} EncodeSize(s: seq<Unit>)
    ensures |Encode(s)| <= 3 * |s|
  {
    if s != [] {
      EncodeStep(s);
      EncodeSize(s[Utf16.Read(s).size..]);
    }
  }

  /** One code unit a byte is enough for the decoder. */
  lemma {:induction false} DecodeSize(b: seq<Byte>)
    ensures |Decode(b)| <= |b|
  {
    if b != [] {
      DecodeStep(b);
      Utf8.ReadIsShort(b);
      DecodeSize(b[Utf8.Read(b).size..]);
    }
  }

  /** ASCII is itself. */
  lemma {:induction false} DecodeAscii(b: seq<Byte>)
    requires forall k :: 0 <= k < |b| ==> b[k] < 0x80
    ensures Decode(b) == b
  {
    hide Decode;
    if b == [] {
      DecodeNothing();
    } else {
      DecodeAscii(b[1..]);
      DecodeStep(b);
      AsciiStep(b);
    }
  }

  lemma DecodeNothing()
    ensures Decode([]) == []
  {
  }

  lemma AsciiStep(b: seq<Byte>)
    requires b != [] && b[0] < 0x80
    ensures Utf8.Read(b) == Step(b[0], 1) && Utf16.Write(b[0]) == [b[0]]
  {
  }

  // ---- surrogates in the bytes --------------------------------------------------------

  predicate Surrogate(cp: int) { 0xD800 <= cp <= 0xDFFF }

  /** A code point, surrogates allowed, in the bytes that UTF-8 would give it. */
  function Spell(cp: int): seq<Byte>
    requires 0 <= cp <= 0x10_FFFF
  {
    if Surrogate(cp) then [0xE0 + cp / 0x1000, 0x80 + cp / 0x40 % 0x40, 0x80 + cp % 0x40] else Utf8.Write(cp)
  }

  function Replaced(cp: int): Scalar
    requires 0 <= cp <= 0x10_FFFF
  {
    if Surrogate(cp) then REPLACEMENT else cp
  }

  function SpellAll(cps: seq<int>): seq<Byte>
    requires forall k :: 0 <= k < |cps| ==> 0 <= cps[k] <= 0x10_FFFF
  {
    if cps == [] then [] else Spell(cps[0]) + SpellAll(cps[1..])
  }

  /** Bytes that spell code points with surrogates among them, as other programs may write them,
      decode to one U+FFFD for each surrogate and to the rest as it is: no surrogate gets
      through, not even as half of a pair, and none becomes three. */
  lemma {:induction false} SurrogatesReplacedOnce(cps: seq<int>)
    requires forall k :: 0 <= k < |cps| ==> 0 <= cps[k] <= 0x10_FFFF
    ensures Utf8.Scan(SpellAll(cps)) == seq(|cps|, k requires 0 <= k < |cps| => Replaced(cps[k]))
    ensures Decode(SpellAll(cps)) == Utf16.WriteAll(seq(|cps|, k requires 0 <= k < |cps| => Replaced(cps[k])))
  {
    hide Utf8.Read, Utf8.Write, Utf8.CharSize, Utf8.Complete, Utf8.Scan;
    if cps == [] {
      Utf8.ScanSize([]);
    } else {
      var b := SpellAll(cps);
      var rest := SpellAll(cps[1..]);
      if Surrogate(cps[0]) {
        SpelledSurrogate(cps[0]);
        Utf8.ReadComplete(Spell(cps[0]), rest);
      } else {
        Utf8.ReadWrite(cps[0], rest);
      }
      Utf8.ScanStep(b);
      assert b[|Spell(cps[0])|..] == rest;
      SurrogatesReplacedOnce(cps[1..]);
    }
  }

  lemma SpelledSurrogate(cp: int)
    requires Surrogate(cp)
    ensures Utf8.Complete(Spell(cp)) && |Spell(cp)| == 3 && Utf8.CharSize(Spell(cp)) == 0
  {
  }
}
