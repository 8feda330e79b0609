/**
 * UTF-16 <-> UTF-32 conversion (utils/string_encoding_util.cpp), following
 * sections 2.1 and 2.2 of RFC 2781. Code units are `char16_t` (u16) and code
 * points `char32_t` (u32); the arithmetic on them is the C++ unsigned
 * arithmetic of the source, written out.
 */
module StringEncoding {
  import opened Bytes

  predicate IsHighSurrogate(c: int) { 0xD800 <= c <= 0xDBFF }
  predicate IsLowSurrogate(c: int) { 0xDC00 <= c <= 0xDFFF }

  /** A Unicode scalar value: at most 0x10FFFF and not a surrogate. */
  predicate IsScalarValue(c: int) { 0 <= c <= 0x10FFFF && !IsHighSurrogate(c) && !IsLowSurrogate(c) }

  /** Bitwise or of two naturals, bit by bit from the least significant end. */
  function BitOr(a: nat, b: nat): nat
    decreases a + b
  {
    if a == 0 then b
    else if b == 0 then a
    else 2 * BitOr(a / 2, b / 2) + (if a % 2 == 1 || b % 2 == 1 then 1 else 0)
  }

  /** p is a power of two. */
  predicate IsPow2(p: nat)
  {
    p == 1 || (p >= 2 && p % 2 == 0 && IsPow2(p / 2))
  }

  /** Or-ing a multiple of a power of two p with a value below p is addition. */
  lemma {:induction false} BitOrDisjoint(h: nat, l: nat, p: nat)
    requires IsPow2(p) && l < p
    ensures BitOr(h * p, l) == h * p + l
    decreases p
  {
    if p > 1 && h != 0 && l != 0 {
      var a := h * p;
      assert a == 2 * (h * (p / 2));
      BitOrDisjoint(h, l / 2, p / 2);
    }
  }

  /**
   * The code point formed from a unit in the high-surrogate range and the unit
   * that follows it, in 32-bit unsigned arithmetic: `lo - 0xDC00` wraps when
   * `lo` is not a low surrogate, and the halves are joined with a bitwise or.
   */
  function CombineSurrogates(hi: u16, lo: u16): u32
    requires IsHighSurrogate(hi)
  {
    var high := hi - 0xD800;
    var low := (lo - 0xDC00) % TWO_32;
    (0x10000 + BitOr(high * 0x400, low)) % TWO_32
  }

  /** For a genuine surrogate pair the bitwise join is the arithmetic one of RFC 2781 section 2.2. */
  lemma CombinePair(hi: u16, lo: u16)
    requires IsHighSurrogate(hi) && IsLowSurrogate(lo)
    ensures CombineSurrogates(hi, lo) == 0x10000 + (hi - 0xD800) * 0x400 + (lo - 0xDC00)
  {
    var h: nat, l: nat := hi - 0xD800, lo - 0xDC00;
    assert IsPow2(0x400);
    assert (lo - 0xDC00) % TWO_32 == l;
    BitOrDisjoint(h, l, 0x400);
    assert BitOr(h * 0x400, l) == h * 0x400 + l;
  }

  /**
   * The decoding loop never reads past the end: a unit in the high-surrogate
   * range is always followed by another unit, which the loop consumes with it.
   */
  predicate ReadsInBounds(t: seq<u16>)
    decreases |t|
  {
    if |t| == 0 then true
    else if IsHighSurrogate(t[0]) then |t| >= 2 && ReadsInBounds(t[2..])
    else ReadsInBounds(t[1..])
  }

  /** Well-formed UTF-16: every high surrogate the loop meets is followed by a low surrogate. */
  predicate PairsWellFormed(t: seq<u16>)
    decreases |t|
  {
    if |t| == 0 then true
    else if IsHighSurrogate(t[0]) then |t| >= 2 && IsLowSurrogate(t[1]) && PairsWellFormed(t[2..])
    else PairsWellFormed(t[1..])
  }

  /** What Utf16ToUtf32 produces. */
  function Decode(t: seq<u16>): (r: seq<u32>)
    requires ReadsInBounds(t)
    ensures |r| <= |t|
    ensures |t| > 0 ==> |r| > 0
    decreases |t|
  {
    if |t| == 0 then []
    else if IsHighSurrogate(t[0]) then [CombineSurrogates(t[0], t[1])] + Decode(t[2..])
    else [t[0] as u32] + Decode(t[1..])
  }

  /** The one or two units Utf32ToUtf16 appends for one code point. */
  function EncodeCodePoint(cp: u32): seq<u16>
  {
    if cp <= 0xFFFF then [cp]
    else
      var c := cp - 0x10000;
      [(0xD800 + c / 0x400) % TWO_16, 0xDC00 + c % 0x400]
  }

  /** What Utf32ToUtf16 produces. */
  function Encode(s: seq<u32>): (r: seq<u16>)
    ensures |s| <= |r| <= 2 * |s|
  {
    if |s| == 0 then [] else EncodeCodePoint(s[0]) + Encode(s[1..])
  }

  /** A code point above 0xFFFF is written as a high surrogate followed by a low surrogate. */
  lemma EncodeAboveBmp(cp: u32)
    requires 0xFFFF < cp <= 0x10FFFF
    ensures var r := EncodeCodePoint(cp);
      |r| == 2 && IsHighSurrogate(r[0]) && IsLowSurrogate(r[1])
      && r[0] == 0xD800 + (cp - 0x10000) / 0x400 && r[1] == 0xDC00 + (cp - 0x10000) % 0x400
  {
  }

  /** The units of a code point above 0xFFFF, as Utf32ToUtf16 computes them. */
  lemma SurrogateUnits(cp: u32)
    requires 0xFFFF < cp
    ensures 0xDC00 + (cp - 0x10000) % 0x400 < TWO_16
    ensures EncodeCodePoint(cp) == [(0xD800 + (cp - 0x10000) / 0x400) % TWO_16, 0xDC00 + (cp - 0x10000) % 0x400]
  {
  }

  /** Units outside the high-surrogate range are copied unchanged. */
  lemma {:induction false} DecodeWithoutHighSurrogates(t: seq<u16>)
    requires forall i :: 0 <= i < |t| ==> !IsHighSurrogate(t[i])
    ensures ReadsInBounds(t) && Decode(t) == t
    decreases |t|
  {
    if |t| > 0 {
      DecodeWithoutHighSurrogates(t[1..]);
    }
  }

  /** Round trip: decoding the encoding of scalar values gives them back. */
  lemma {:induction false} DecodeEncode(s: seq<u32>)
    requires forall i :: 0 <= i < |s| ==> IsScalarValue(s[i])
    ensures ReadsInBounds(Encode(s)) && Decode(Encode(s)) == s
    decreases |s|
  {
    if |s| > 0 {
      var head := EncodeCodePoint(s[0]);
      var tail := Encode(s[1..]);
      DecodeEncode(s[1..]);
      assert Encode(s) == head + tail;
      if s[0] <= 0xFFFF {
        assert (head + tail)[1..] == tail;
      } else {
        EncodeAboveBmp(s[0]);
        CombinePair(head[0], head[1]);
        assert (head + tail)[2..] == tail;
      }
    }
  }

  lemma SplitPair(h: nat, l: nat)
    requires h < 0x400 && l < 0x400
    ensures (h * 0x400 + l) / 0x400 == h && (h * 0x400 + l) % 0x400 == l
  {
  }

  /** A genuine surrogate pair is re-encoded as itself. */
  lemma PairRoundTrip(hi: u16, lo: u16)
    requires IsHighSurrogate(hi) && IsLowSurrogate(lo)
    ensures EncodeCodePoint(CombineSurrogates(hi, lo)) == [hi, lo]
  {
    CombinePair(hi, lo);
    SplitPair(hi - 0xD800, lo - 0xDC00);
  }

  /** Encoding a sequence that starts with cp starts with cp's units. */
  lemma EncodeCons(cp: u32, s: seq<u32>)
    ensures Encode([cp] + s) == EncodeCodePoint(cp) + Encode(s)
  {
    assert ([cp] + s)[1..] == s;
  }

  /** Encoding one more code point appends its units. */
  lemma {:induction false} EncodeSnoc(s: seq<u32>, cp: u32)
    ensures Encode(s + [cp]) == Encode(s) + EncodeCodePoint(cp)
    decreases |s|
  {
    if |s| == 0 {
      assert s + [cp] == [cp] + [];
    } else {
      EncodeSnoc(s[1..], cp);
      assert (s + [cp])[1..] == s[1..] + [cp];
    }
  }

  /** Round trip the other way: encoding the decoding of well-formed UTF-16 gives it back. */
  lemma {:induction false} EncodeDecode(t: seq<u16>)
    requires PairsWellFormed(t)
    ensures ReadsInBounds(t) && Encode(Decode(t)) == t
    decreases |t|
  {
    if |t| > 0 {
      if IsHighSurrogate(t[0]) {
        EncodeDecode(t[2..]);
        PairRoundTrip(t[0], t[1]);
        EncodeCons(CombineSurrogates(t[0], t[1]), Decode(t[2..]));
        assert t == [t[0], t[1]] + t[2..];
      } else {
        EncodeDecode(t[1..]);
        EncodeCons(t[0] as u32, Decode(t[1..]));
        assert t == [t[0]] + t[1..];
      }
    }
  }

  /** StringEncodingUtil::Utf16ToUtf32 (lines 3-23). */
  method Utf16ToUtf32(text: seq<u16>) returns (out: seq<u32>)
    requires ReadsInBounds(text)
    ensures out == Decode(text)
  {
    out := [];
    var i := 0;
    while i < |text|
      invariant 0 <= i <= |text|
      invariant ReadsInBounds(text[i..])
      invariant out + Decode(text[i..]) == Decode(text)
    {
      var c: u32 := text[i];
      if 0xD800 <= c <= 0xDBFF {
        i := i + 1;
        c := CombineSurrogates(text[i - 1], text[i]);
        assert text[i - 1..][2..] == text[i + 1..];
      } else {
        assert text[i..][1..] == text[i + 1..];
      }
      out := out + [c];
      i := i + 1;
    }
  }

  /** StringEncodingUtil::Utf32ToUtf16 (lines 25-44). */
  method Utf32ToUtf16(u32s: seq<u32>) returns (out: seq<u16>)
    ensures out == Encode(u32s)
  {
    out := [];
    var i := 0;
    while i < |u32s|
      invariant 0 <= i <= |u32s|
      invariant out == Encode(u32s[..i])
    {
      var cp := u32s[i];
      ghost var before := out;
      if cp <= 0xFFFF {
        out := out + [cp];
      } else {
        var c := cp - 0x10000;
        SurrogateUnits(cp);
        out := out + [(0xD800 + c / 0x400) % TWO_16];
        out := out + [0xDC00 + c % 0x400];
        assert out == before + EncodeCodePoint(cp);
      }
      assert u32s[..i + 1] == u32s[..i] + [cp];
      EncodeSnoc(u32s[..i], cp);
      i := i + 1;
    }
    assert u32s[..i] == u32s;
  }
}
