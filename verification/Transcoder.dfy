/** The conversion routines of qjs_util.c on buffers: the writer and the reader that move a
    position, the two-pass encoder, and the decoder with its worst-case buffer. */
module Transcoder {
  import opened Unicode
  import Utf8
  import Utf16
  import Codec

  /** Utf8String: an allocation of `len` bytes and a terminating zero. */
  datatype Utf8String = Utf8String(bytes: array<Byte>, len: nat)

  datatype Result<+T> = Success(value: T) | OutOfMemory

  /** write_utf8: stores one scalar at `p` and returns the position after it. */
  method WriteUtf8(out: array<Byte>, p: nat, cp: Scalar) returns (q: nat)
    requires p + |Utf8.Write(cp)| <= out.Length
    modifies out
    ensures q == p + |Utf8.Write(cp)|
    ensures out[..q] == old(out[..p]) + Utf8.Write(cp)
    ensures out[q..] == old(out[q..])
  {
    q := p;
    if cp <= 0x7F {
      out[q] := cp; q := q + 1;
    } else if cp <= 0x7FF {
      out[q] := 0xC0 + cp / 0x40; q := q + 1;
      out[q] := 0x80 + cp % 0x40; q := q + 1;
    } else if cp <= 0xFFFF {
      out[q] := 0xE0 + cp / 0x1000; q := q + 1;
      out[q] := 0x80 + cp / 0x40 % 0x40; q := q + 1;
      out[q] := 0x80 + cp % 0x40; q := q + 1;
    } else {
      out[q] := 0xF0 + cp / 0x4_0000; q := q + 1;
      out[q] := 0x80 + cp / 0x1000 % 0x40; q := q + 1;
      out[q] := 0x80 + cp / 0x40 % 0x40; q := q + 1;
      out[q] := 0x80 + cp % 0x40; q := q + 1;
    }
  }

  /** The scalar at `i` and the index of the last unit it takes, as both passes compute it. */
  method NextScalar(chars: array<Unit>, i: nat) returns (cp: Scalar, last: nat)
    requires i < chars.Length
    ensures i <= last < chars.Length
    ensures Utf16.Read(chars[i..]) == Step(cp, last + 1 - i)
  {
    last := i;
    var u: int := chars[i];
    if 0xD800 <= u <= 0xDBFF {
      if i + 1 < chars.Length && 0xDC00 <= chars[i + 1] <= 0xDFFF {
        last := i + 1;
        cp := 0x1_0000 + (u - 0xD800) * 0x400 + ((chars[last] as int) - 0xDC00);
      } else {
        cp := REPLACEMENT;
      }
    } else if 0xDC00 <= u <= 0xDFFF {
      cp := REPLACEMENT;
    } else {
      cp := u;
    }
  }

  /** jstring_to_utf8. The first pass measures, the second writes exactly what was measured;
      `granted` says whether the characters and the buffer could be had. */
  method JstringToUtf8(chars: array<Unit>, granted: bool) returns (r: Result<Utf8String>)
    ensures r.Success? <==> granted
    ensures r.Success? ==>
              && r.value.len == |Codec.Encode(chars[..])|
              && r.value.len <= 3 * chars.Length
              && r.value.bytes.Length == r.value.len + 1
              && r.value.bytes[..r.value.len] == Codec.Encode(chars[..])
              && r.value.bytes[r.value.len] == 0
  {
    hide Utf8.Write, Utf16.Read, Codec.Encode;
    var byteLen := Measure(chars);
    if !granted {
      return OutOfMemory;
    }
    var bytes := new Byte[byteLen + 1];
    var p: nat, i: nat := 0, 0;
    NothingLeft();
    while i < chars.Length
      invariant 0 <= i <= chars.Length
      invariant p <= byteLen && p + |Codec.Encode(chars[i..])| == byteLen
      invariant bytes[..p] + Codec.Encode(chars[i..]) == Codec.Encode(chars[..])
    {
      var cp, last := NextScalar(chars, i);
      Advance(chars, i);
      p := WriteUtf8(bytes, p, cp);
      i := last + 1;
    }
    assert chars[i..] == [];
    bytes[byteLen] := 0;
    Codec.EncodeSize(chars[..]);
    return Success(Utf8String(bytes, byteLen));
  }

  /** The measuring pass. */
  method Measure(chars: array<Unit>) returns (byteLen: nat)
    ensures byteLen == |Codec.Encode(chars[..])|
  {
    byteLen := 0;
    var i := 0;
    while i < chars.Length
      invariant 0 <= i <= chars.Length
      invariant byteLen + |Codec.Encode(chars[i..])| == |Codec.Encode(chars[..])|
    {
      var cp, last := NextScalar(chars, i);
      Advance(chars, i);
      byteLen := byteLen + Utf8.Length(cp);
      i := last + 1;
    }
  }

  lemma Advance(chars: array<Unit>, i: nat)
    requires i < chars.Length
    ensures var r := Utf16.Read(chars[i..]);
            Codec.Encode(chars[i..]) == Utf8.Write(r.cp) + Codec.Encode(chars[i + r.size..])
  {
    var s := chars[i..];
    var n := Utf16.Read(s).size;
    Codec.EncodeStep(s);
    assert s[n..] == chars[i + n..];
  }

  /** The loop of read_utf8 over the continuation bytes after `index`. */
  method ReadTail(bytes: array<Byte>, len: nat, index: nat, extra: nat, bits: int)
    returns (bad: bool, value: int, i: nat)
    requires index + 1 + extra <= len <= bytes.Length
    ensures var t := Utf8.ReadTail(bytes[index..len], 1, extra, bits);
            if bad then t.BadAt? && i == index + t.i + 1 && i <= index + 1 + extra
            else t == Utf8.Value(value) && i == index + 1 + extra
  {
    ghost var b := bytes[index..len];
    value, i := bits, index + 1;
    for j := 0 to extra
      invariant i == index + 1 + j
      invariant Utf8.ReadTail(b, 1 + j, extra - j, value) == Utf8.ReadTail(b, 1, extra, bits)
    {
      var cc := bytes[i];
      assert cc == b[1 + j];
      i := i + 1;
      if !(0x80 <= cc <= 0xBF) {
        return true, value, i;
      }
      value := value * 0x40 + Utf8.Low(cc, 0x40);
    }
    return false, value, i;
  }

  /** read_utf8: the scalar at `index`, and the index after the bytes it consumed. */
  method ReadUtf8(bytes: array<Byte>, len: nat, index: nat) returns (cp: Scalar, next: nat)
    requires index < len <= bytes.Length
    ensures index < next <= len && next <= index + 4
    ensures Utf8.Read(bytes[index..len]) == Step(cp, next - index)
  {
    ghost var b := bytes[index..len];
    var c := bytes[index];
    var i := index + 1;
    if c < 0x80 {
      return c, i;
    }
    var value: int, extra: nat, least: int;
    if 0xC0 <= c <= 0xDF {
      value, extra, least := Utf8.Low(c, 0x20), 1, 0x80;
    } else if 0xE0 <= c <= 0xEF {
      value, extra, least := Utf8.Low(c, 0x10), 2, 0x800;
    } else if 0xF0 <= c <= 0xF7 {
      value, extra, least := Utf8.Low(c, 0x08), 3, 0x1_0000;
    } else {
      return REPLACEMENT, i;
    }
    if i + extra > len {
      return REPLACEMENT, i;
    }
    assert Utf8.Classify(b[0]) == Utf8.Multi(value, extra, least);
    var bad;
    bad, value, i := ReadTail(bytes, len, index, extra, value);
    if bad {
      return REPLACEMENT, i;
    }
    if value < least || value > 0x10FFFF || 0xD800 <= value <= 0xDFFF {
      value := REPLACEMENT;
    }
    return value, i;
  }

  /** The stores of one decoder step: a unit, or a surrogate pair. */
  method WriteUnits(chars: array<Unit>, p: nat, cp: Scalar) returns (q: nat)
    requires p + |Utf16.Write(cp)| <= chars.Length
    modifies chars
    ensures q == p + |Utf16.Write(cp)|
    ensures chars[..q] == old(chars[..p]) + Utf16.Write(cp)
  {
    q := p;
    if cp <= 0xFFFF {
      chars[q] := cp; q := q + 1;
    } else {
      chars[q] := 0xD800 + (cp - 0x1_0000) / 0x400; q := q + 1;
      chars[q] := 0xDC00 + (cp - 0x1_0000) % 0x400; q := q + 1;
    }
  }

  /** utf8_to_jstring. One unit a byte, and one to spare, always suffice. */
  method Utf8ToJstring(bytes: array<Byte>, len: nat, granted: bool) returns (r: Result<seq<Unit>>)
    requires len <= bytes.Length
    ensures r == if granted then Success(Codec.Decode(bytes[..len])) else OutOfMemory
  {
    if !granted {
      return OutOfMemory;
    }
    var chars := new Unit[len + 1];
    var outLen := DecodeInto(bytes, len, chars);
    return Success(chars[..outLen]);
  }

  /** The decoding loop. */
  method DecodeInto(bytes: array<Byte>, len: nat, chars: array<Unit>) returns (outLen: nat)
    requires len <= bytes.Length && chars.Length == len + 1
    requires bytes as object != chars
    modifies chars
    ensures outLen <= len
    ensures chars[..outLen] == Codec.Decode(old(bytes[..len]))
  {
    hide Utf8.Read, Codec.Decode, Utf16.Write;
    ghost var b := bytes[..len];
    ghost var rest := Codec.Decode(b);
    var i: nat := 0;
    outLen := 0;
    assert b[0..] == b;
    while i < len
      invariant outLen <= i <= len
      invariant bytes[..len] == b
      invariant rest == Codec.Decode(b[i..])
      invariant chars[..outLen] + rest == Codec.Decode(b)
    {
      assert bytes[i..len] == b[i..];
      var cp, next := ReadUtf8(bytes, len, i);
      DecodeAdvance(b, i);
      outLen := WriteUnits(chars, outLen, cp);
      i, rest := next, rest[|Utf16.Write(cp)|..];
    }
    assert b[i..] == [];
    NothingLeft();
  }

  lemma NothingLeft()
    ensures Codec.Encode([]) == [] && Codec.Decode([]) == []
  {
  }

  lemma DecodeAdvance(b: seq<Byte>, i: nat)
    requires i < |b|
    ensures var s := Utf8.Read(b[i..]);
            && |Utf16.Write(s.cp)| <= s.size
            && Codec.Decode(b[i..]) == Utf16.Write(s.cp) + Codec.Decode(b[i + s.size..])
  {
    hide Utf8.Read, Codec.Decode;
    var s := Utf8.Read(b[i..]);
    Codec.DecodeStep(b[i..]);
    Utf8.ReadIsShort(b[i..]);
    assert b[i..][s.size..] == b[i + s.size..];
  }
}
