/** Fixed-width unsigned integers and their little-endian byte encodings. */
module Bytes {

  const TWO_8: int := 0x100
  const TWO_16: int := 0x1_0000
  const TWO_32: int := 0x1_0000_0000
  const TWO_64: int := 0x1_0000_0000_0000_0000

  type byte = b: int | 0 <= b < 0x100
  type u16 = x: int | 0 <= x < 0x1_0000
  type u32 = x: int | 0 <= x < 0x1_0000_0000
  type u64 = x: int | 0 <= x < 0x1_0000_0000_0000_0000

  /** The two bytes of `v`, least significant first. */
  function U16Bytes(v: u16): (r: seq<byte>)
    ensures |r| == 2
  {
    [v % 0x100, v / 0x100]
  }

  /** The four bytes of `v`, least significant first. */
  function U32Bytes(v: u32): (r: seq<byte>)
    ensures |r| == 4
  {
    var q1 := v / 0x100;
    var q2 := q1 / 0x100;
    [v % 0x100, q1 % 0x100, q2 % 0x100, q2 / 0x100]
  }

  /** The little-endian u16 stored at `at`. */
  function ReadU16(s: seq<byte>, at: nat): u16
    requires at + 2 <= |s|
  {
    s[at] as int + 0x100 * (s[at + 1] as int)
  }

  /** The little-endian u32 stored at `at`. */
  function ReadU32(s: seq<byte>, at: nat): u32
    requires at + 4 <= |s|
  {
    s[at] as int + 0x100 * (s[at + 1] as int + 0x100 * (s[at + 2] as int + 0x100 * (s[at + 3] as int)))
  }

  lemma U16RoundTrip(v: u16, pre: seq<byte>, post: seq<byte>)
    ensures ReadU16(pre + U16Bytes(v) + post, |pre|) == v
  {
    var s := pre + U16Bytes(v) + post;
    assert s[|pre|] == v % 0x100 && s[|pre| + 1] == v / 0x100;
  }

  lemma U32RoundTrip(v: u32, pre: seq<byte>, post: seq<byte>)
    ensures ReadU32(pre + U32Bytes(v) + post, |pre|) == v
  {
    var s := pre + U32Bytes(v) + post;
    var q1 := v / 0x100;
    var q2 := q1 / 0x100;
    assert s[|pre|] == v % 0x100 && s[|pre| + 1] == q1 % 0x100;
    assert s[|pre| + 2] == q2 % 0x100 && s[|pre| + 3] == q2 / 0x100;
    assert q2 == q2 % 0x100 + 0x100 * (q2 / 0x100);
    assert q1 == q1 % 0x100 + 0x100 * q2;
    assert v == v % 0x100 + 0x100 * q1;
  }

  /** Consecutive u32 values, each little-endian. */
  function U32sBytes(vs: seq<u32>): (r: seq<byte>)
    ensures |r| == 4 * |vs|
  {
    if |vs| == 0 then [] else U32Bytes(vs[0]) + U32sBytes(vs[1..])
  }

  /** The `count` consecutive little-endian u32 values stored from `at`. */
  function ReadU32s(s: seq<byte>, at: nat, count: nat): (r: seq<u32>)
    requires at + 4 * count <= |s|
    ensures |r| == count
    decreases count
  {
    if count == 0 then [] else [ReadU32(s, at)] + ReadU32s(s, at + 4, count - 1)
  }

  lemma {:induction false} U32sRoundTrip(vs: seq<u32>, pre: seq<byte>, post: seq<byte>)
    ensures |pre| + 4 * |vs| <= |pre + U32sBytes(vs) + post|
    ensures ReadU32s(pre + U32sBytes(vs) + post, |pre|, |vs|) == vs
  {
    if |vs| > 0 {
      var s := pre + U32sBytes(vs) + post;
      var rest := U32sBytes(vs[1..]) + post;
      assert s == pre + U32Bytes(vs[0]) + rest;
      U32RoundTrip(vs[0], pre, rest);
      assert s == (pre + U32Bytes(vs[0])) + U32sBytes(vs[1..]) + post;
      U32sRoundTrip(vs[1..], pre + U32Bytes(vs[0]), post);
      assert vs == [vs[0]] + vs[1..];
    }
  }

  /** The i-th of the u32 values stored from `at` is the one stored at `at + 4 * i`. */
  lemma {:induction false} ReadU32sIndex(s: seq<byte>, at: nat, count: nat, i: nat)
    requires at + 4 * count <= |s| && i < count
    ensures ReadU32s(s, at, count)[i] == ReadU32(s, at + 4 * i)
    decreases i
  {
    if i > 0 {
      ReadU32sIndex(s, at + 4, count - 1, i - 1);
    }
  }

  /** Consecutive u16 values, each little-endian. */
  function U16sBytes(vs: seq<u16>): (r: seq<byte>)
    ensures |r| == 2 * |vs|
  {
    if |vs| == 0 then [] else U16Bytes(vs[0]) + U16sBytes(vs[1..])
  }

  /** The `count` consecutive little-endian u16 values stored from `at`. */
  function ReadU16s(s: seq<byte>, at: nat, count: nat): (r: seq<u16>)
    requires at + 2 * count <= |s|
    ensures |r| == count
    decreases count
  {
    if count == 0 then [] else [ReadU16(s, at)] + ReadU16s(s, at + 2, count - 1)
  }

  lemma {:induction false} U16sRoundTrip(vs: seq<u16>, pre: seq<byte>, post: seq<byte>)
    ensures |pre| + 2 * |vs| <= |pre + U16sBytes(vs) + post|
    ensures ReadU16s(pre + U16sBytes(vs) + post, |pre|, |vs|) == vs
  {
    if |vs| > 0 {
      var s := pre + U16sBytes(vs) + post;
      var rest := U16sBytes(vs[1..]) + post;
      assert s == pre + U16Bytes(vs[0]) + rest;
      U16RoundTrip(vs[0], pre, rest);
      assert s == (pre + U16Bytes(vs[0])) + U16sBytes(vs[1..]) + post;
      U16sRoundTrip(vs[1..], pre + U16Bytes(vs[0]), post);
      assert vs == [vs[0]] + vs[1..];
    }
  }

  /** The i-th of the u16 values stored from `at` is the one stored at `at + 2 * i`. */
  lemma {:induction false} ReadU16sIndex(s: seq<byte>, at: nat, count: nat, i: nat)
    requires at + 2 * count <= |s| && i < count
    ensures ReadU16s(s, at, count)[i] == ReadU16(s, at + 2 * i)
    decreases i
  {
    if i > 0 {
      ReadU16sIndex(s, at + 2, count - 1, i - 1);
    }
  }

  /** Bytes written anywhere in a stream are found again at the same place. */
  lemma SliceRoundTrip(b: seq<byte>, pre: seq<byte>, post: seq<byte>)
    ensures (pre + b + post)[|pre|..|pre| + |b|] == b
  {
  }

  /** A stream is what comes before a stored piece, the piece, and what comes after it. */
  lemma Around(s: seq<byte>, at: nat, e: seq<byte>)
    requires at + |e| <= |s| && s[at..at + |e|] == e
    ensures s == s[..at] + e + s[at + |e|..] && |s[..at]| == at
  {
  }

  /** A u32 whose bytes are stored at `at` reads back unchanged. */
  lemma U32At(v: u32, s: seq<byte>, at: nat)
    requires at + 4 <= |s| && s[at..at + 4] == U32Bytes(v)
    ensures ReadU32(s, at) == v
  {
    assert s == s[..at] + U32Bytes(v) + s[at + 4..];
    U32RoundTrip(v, s[..at], s[at + 4..]);
  }

  /** The bytes at `at` are the encoding of the u32 read there. */
  lemma ReadU32Bytes(s: seq<byte>, at: nat)
    requires at + 4 <= |s|
    ensures U32Bytes(ReadU32(s, at)) == s[at..at + 4]
  {
    var b2 := s[at + 2] as int + 0x100 * (s[at + 3] as int);
    var b1 := s[at + 1] as int + 0x100 * b2;
    var v := s[at] as int + 0x100 * b1;
    LowByte(s[at], b1);
    LowByte(s[at + 1], b2);
    LowByte(s[at + 2], s[at + 3] as int);
  }

  lemma LowByte(b: byte, k: int)
    ensures (b + 0x100 * k) % 0x100 == b && (b + 0x100 * k) / 0x100 == k
  {
  }

  /** A piece of stored bytes is stored one piece further on. */
  lemma SubSlice(s: seq<byte>, at: nat, e: seq<byte>, i: nat, j: nat)
    requires at + |e| <= |s| && s[at..at + |e|] == e && i <= j <= |e|
    ensures s[at + i..at + j] == e[i..j]
  {
    forall k | 0 <= k < j - i
      ensures s[at + i..at + j][k] == e[i..j][k]
    {
      assert s[at + i..at + j][k] == s[at + i + k] == s[at..at + |e|][i + k];
    }
  }
}
