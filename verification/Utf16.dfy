/** UTF-16 as qjs_util.c reads and writes it: sections 2.1 and 2.2 of RFC 2781, with an
    unpaired surrogate read as U+FFFD. */
module Utf16 {
  import opened Unicode

  // ---- the reader ---------------------------------------------------------------------

  function Combined(high: int, low: int): (cp: Scalar)
    requires IsHigh(high) && IsLow(low)
    ensures cp >= 0x1_0000
  {
    0x1_0000 + (high - 0xD800) * 0x400 + (low - 0xDC00)
  }

  function Read(s: seq<Unit>): (r: Step)
    requires s != []
    ensures 1 <= r.size <= 2 && r.size <= |s|
  {
    if IsHigh(s[0]) then
      if 1 < |s| && IsLow(s[1]) then
        Step(Combined(s[0], s[1]), 2)
      else
        Step(REPLACEMENT, 1)
    else if IsLow(s[0]) then
      Step(REPLACEMENT, 1)
    else
      Step(s[0], 1)
  }

  function Scan(s: seq<Unit>): seq<Scalar> {
    if s == [] then [] else [Read(s).cp] + Scan(s[Read(s).size..])
  }

  // ---- the writer ---------------------------------------------------------------------

  function Write(cp: Scalar): (s: seq<Unit>)
    ensures 1 <= |s| <= 2
  {
    if cp <= 0xFFFF then
      [cp]
    else
      [0xD800 + (cp - 0x1_0000) / 0x400, 0xDC00 + (cp - 0x1_0000) % 0x400]
  }

  function WriteAll(cps: seq<Scalar>): seq<Unit> {
    if cps == [] then [] else Write(cps[0]) + WriteAll(cps[1..])
  }

  // ---- what a Java string may hold ----------------------------------------------------

  /** A surrogate without its other half, told from its two neighbours. */
  predicate Unpaired(s: seq<Unit>, i: nat)
    requires i < |s|
  {
    || (IsHigh(s[i]) && !(i + 1 < |s| && IsLow(s[i + 1])))
    || (IsLow(s[i]) && !(0 < i && IsHigh(s[i - 1])))
  }

  ghost predicate WellFormed(s: seq<Unit>) {
    forall i :: 0 <= i < |s| ==> !Unpaired(s, i)
  }

  /** The string with every unpaired surrogate replaced by U+FFFD. */
  function Sanitised(s: seq<Unit>): (t: seq<Unit>) {
    seq(|s|, i requires 0 <= i < |s| => if Unpaired(s, i) then REPLACEMENT else s[i])
  }

  // ---- lemmas -------------------------------------------------------------------------

  lemma ReadWrite(cp: Scalar, rest: seq<Unit>)
    ensures Read(Write(cp) + rest) == Step(cp, |Write(cp)|)
  {
    var s := Write(cp) + rest;
    assert s[0] == Write(cp)[0];
    if cp > 0xFFFF {
      assert s[1] == Write(cp)[1];
    }
  }

  lemma {:induction false} ScanWriteAll(cps: seq<Scalar>)
    ensures Scan(WriteAll(cps)) == cps
  {
    if cps != [] {
      var tail := WriteAll(cps[1..]);
      ReadWrite(cps[0], tail);
      assert (Write(cps[0]) + tail)[|Write(cps[0])|..] == tail;
      ScanWriteAll(cps[1..]);
    }
  }

  /** Writing what one step read gives the sanitised units it consumed. */
  lemma WriteRead(s: seq<Unit>)
    requires s != []
    ensures Write(Read(s).cp) == Sanitised(s)[..Read(s).size]
  {
  }

  /** A step never separates a pair, so what is unpaired after it was unpaired before. */
  lemma SanitisedSplits(s: seq<Unit>)
    requires s != []
    ensures var n := Read(s).size; Sanitised(s) == Sanitised(s)[..n] + Sanitised(s[n..])
  {
    var n := Read(s).size;
    forall i | 0 <= i < |s| - n ensures Unpaired(s[n..], i) == Unpaired(s, n + i) {
    }
  }

  /** Scanning a Java string and writing it back only replaces its unpaired surrogates. */
  lemma {:induction false} WriteAllScan(s: seq<Unit>)
    ensures WriteAll(Scan(s)) == Sanitised(s)
  {
    if s != [] {
      var r := Read(s);
      assert Scan(s)[0] == r.cp && Scan(s)[1..] == Scan(s[r.size..]);
      WriteAllScan(s[r.size..]);
      WriteRead(s);
      SanitisedSplits(s);
    }
  }

  lemma SanitisedIsSameOnlyIfWellFormed(s: seq<Unit>)
    ensures Sanitised(s) == s <==> WellFormed(s)
  {
    forall i | 0 <= i < |s| && Unpaired(s, i) ensures Sanitised(s)[i] != s[i] {
    }
  }

  /** What is written is well-formed. */
  lemma WriteAllWellFormed(cps: seq<Scalar>)
    ensures WellFormed(WriteAll(cps))
  {
    ScanWriteAll(cps);
    WriteAllScan(WriteAll(cps));
    SanitisedIsSameOnlyIfWellFormed(WriteAll(cps));
  }

  lemma {:induction false} WriteAllAppend(x: seq<Scalar>, y: seq<Scalar>)
    ensures WriteAll(x + y) == WriteAll(x) + WriteAll(y)
  {
    if x == [] {
      assert x + y == y;
    } else {
      assert (x + y)[1..] == x[1..] + y;
      WriteAllAppend(x[1..], y);
    }
  }
}
