/**
 * The records of a compiled font and their byte layout. The C++ structs
 * (core/font/font_data.h) are not part of this model: the layout below is
 * the natural little-endian layout of the fields the font compiler and the
 * font reader use, with the padding a C++ compiler inserts, and it is shared
 * by the writer and the reader exactly as the one struct declaration is in
 * the source.
 */
module FontData {
  import opened Bytes
  import opened Wrappers
  import opened TextureHeaderLayout

  /** sizeof(CommonBlock): five u16, five u8, one byte of padding, two u32. */
  const COMMON_SIZE: nat := 24
  /** sizeof(Char): the 20-byte BMFont character record, copied as is. */
  const CHAR_SIZE: nat := 20
  /** sizeof(KerningPair): two u32, one i16, two bytes of padding. */
  const KERNING_PAIR_SIZE: nat := 12

  type i16 = x: int | -0x8000 <= x < 0x8000

  /** A character record; the font code reads it only as a whole. */
  type CharRecord = s: seq<byte> | |s| == 20
    witness [0, 0, 0, 0, 0, 0, 0, 0, 0, 0, 0, 0, 0, 0, 0, 0, 0, 0, 0, 0]

  datatype CommonBlock = CommonBlock(
    lineHeight: u16, base: u16, scaleW: u16, scaleH: u16, pages: u16,
    bitField: byte, alphaChannel: byte, redChannel: byte, greenChannel: byte, blueChannel: byte,
    charsCount: u32, kerningPairsCount: u32)

  datatype KerningPair = KerningPair(first: u32, second: u32, amount: i16)

  /** The u16 fields of a common block, in declaration order. */
  function Metrics(c: CommonBlock): (r: seq<u16>)
    ensures |r| == 5
  {
    [c.lineHeight, c.base, c.scaleW, c.scaleH, c.pages]
  }

  /** The u8 fields of a common block, in declaration order. */
  function Channels(c: CommonBlock): (r: seq<byte>)
    ensures |r| == 5
  {
    [c.bitField, c.alphaChannel, c.redChannel, c.greenChannel, c.blueChannel]
  }

  function EncodeCommon(c: CommonBlock): (r: seq<byte>)
    ensures |r| == COMMON_SIZE
  {
    U16sBytes(Metrics(c)) + Channels(c) + [0] + U32sBytes([c.charsCount, c.kerningPairsCount])
  }

  /** `*reinterpret_cast<CommonBlock*>(&bytes[at])`. */
  function DecodeCommon(s: seq<byte>, at: nat): CommonBlock
    requires at + COMMON_SIZE <= |s|
  {
    CommonBlock(
      ReadU16(s, at), ReadU16(s, at + 2), ReadU16(s, at + 4), ReadU16(s, at + 6), ReadU16(s, at + 8),
      s[at + 10], s[at + 11], s[at + 12], s[at + 13], s[at + 14],
      ReadU32(s, at + 16), ReadU32(s, at + 20))
  }

  lemma CommonRoundTrip(c: CommonBlock, pre: seq<byte>, post: seq<byte>)
    ensures |pre| + COMMON_SIZE <= |pre + EncodeCommon(c) + post|
    ensures DecodeCommon(pre + EncodeCommon(c) + post, |pre|) == c
  {
    CommonFrontRead(c, pre, post);
    CommonCountsRead(c, pre, post);
  }

  /** The u16 and u8 fields of a written common block read back unchanged. */
  lemma CommonFrontRead(c: CommonBlock, pre: seq<byte>, post: seq<byte>)
    ensures var s := pre + EncodeCommon(c) + post;
      |pre| + COMMON_SIZE <= |s|
      && ReadU16(s, |pre|) == c.lineHeight && ReadU16(s, |pre| + 2) == c.base
      && ReadU16(s, |pre| + 4) == c.scaleW && ReadU16(s, |pre| + 6) == c.scaleH
      && ReadU16(s, |pre| + 8) == c.pages
      && s[|pre| + 10..|pre| + 15] == Channels(c)
  {
    var s := pre + EncodeCommon(c) + post;
    var a := U16sBytes(Metrics(c));
    var b := Channels(c) + [0];
    var counts := U32sBytes([c.charsCount, c.kerningPairsCount]);
    assert s == pre + a + (b + counts + post);
    U16sRoundTrip(Metrics(c), pre, b + counts + post);
    ReadU16sIndex(s, |pre|, 5, 0);
    ReadU16sIndex(s, |pre|, 5, 1);
    ReadU16sIndex(s, |pre|, 5, 2);
    ReadU16sIndex(s, |pre|, 5, 3);
    ReadU16sIndex(s, |pre|, 5, 4);
    assert s[|pre| + 10..|pre| + 15] == Channels(c);
  }

  /** The two counts of a written common block read back unchanged. */
  lemma CommonCountsRead(c: CommonBlock, pre: seq<byte>, post: seq<byte>)
    ensures var s := pre + EncodeCommon(c) + post;
      |pre| + COMMON_SIZE <= |s|
      && ReadU32(s, |pre| + 16) == c.charsCount && ReadU32(s, |pre| + 20) == c.kerningPairsCount
  {
    var s := pre + EncodeCommon(c) + post;
    var ab := U16sBytes(Metrics(c)) + Channels(c) + [0];
    var counts := U32sBytes([c.charsCount, c.kerningPairsCount]);
    assert s == (pre + ab) + counts + post;
    U32sRoundTrip([c.charsCount, c.kerningPairsCount], pre + ab, post);
    ReadU32sIndex(s, |pre| + 16, 2, 0);
    ReadU32sIndex(s, |pre| + 16, 2, 1);
  }

  /** The two's-complement bits of an i16. */
  function AmountBits(a: i16): u16
  {
    a % TWO_16
  }

  /** The i16 whose two's-complement bits are v. */
  function SignedAmount(v: u16): (r: i16)
    ensures AmountBits(r) == v
  {
    if v < 0x8000 then v else v - TWO_16
  }

  lemma AmountRoundTrip(a: i16)
    ensures SignedAmount(AmountBits(a)) == a
  {
  }

  function EncodeKerningPair(k: KerningPair): (r: seq<byte>)
    ensures |r| == KERNING_PAIR_SIZE
  {
    U32sBytes([k.first, k.second]) + U16Bytes(AmountBits(k.amount)) + [0, 0]
  }

  function DecodeKerningPair(s: seq<byte>, at: nat): KerningPair
    requires at + KERNING_PAIR_SIZE <= |s|
  {
    KerningPair(ReadU32(s, at), ReadU32(s, at + 4), SignedAmount(ReadU16(s, at + 8)))
  }

  lemma KerningPairRoundTrip(k: KerningPair, pre: seq<byte>, post: seq<byte>)
    ensures |pre| + KERNING_PAIR_SIZE <= |pre + EncodeKerningPair(k) + post|
    ensures DecodeKerningPair(pre + EncodeKerningPair(k) + post, |pre|) == k
  {
    var s := pre + EncodeKerningPair(k) + post;
    var ids := U32sBytes([k.first, k.second]);
    var amount := U16Bytes(AmountBits(k.amount));
    assert s == pre + ids + (amount + [0, 0] + post);
    U32sRoundTrip([k.first, k.second], pre, amount + [0, 0] + post);
    ReadU32sIndex(s, |pre|, 2, 0);
    ReadU32sIndex(s, |pre|, 2, 1);
    assert s == (pre + ids) + amount + ([0, 0] + post);
    U16RoundTrip(AmountBits(k.amount), pre + ids, [0, 0] + post);
    AmountRoundTrip(k.amount);
  }

  /** Character records one after the other. */
  function EncodeChars(cs: seq<CharRecord>): (r: seq<byte>)
    ensures |r| == CHAR_SIZE * |cs|
  {
    if |cs| == 0 then [] else cs[0] + EncodeChars(cs[1..])
  }

  /** The `count` character records stored from `at`. */
  function DecodeChars(s: seq<byte>, at: nat, count: nat): (r: seq<CharRecord>)
    requires at + CHAR_SIZE * count <= |s|
    ensures |r| == count
    decreases count
  {
    if count == 0 then [] else [s[at..at + CHAR_SIZE]] + DecodeChars(s, at + CHAR_SIZE, count - 1)
  }

  lemma {:induction false} CharsRoundTrip(cs: seq<CharRecord>, pre: seq<byte>, post: seq<byte>)
    ensures |pre| + CHAR_SIZE * |cs| <= |pre + EncodeChars(cs) + post|
    ensures DecodeChars(pre + EncodeChars(cs) + post, |pre|, |cs|) == cs
  {
    if |cs| > 0 {
      var s := pre + EncodeChars(cs) + post;
      var rest := EncodeChars(cs[1..]) + post;
      assert s == pre + cs[0] + rest;
      SliceRoundTrip(cs[0], pre, rest);
      assert s == (pre + cs[0]) + EncodeChars(cs[1..]) + post;
      CharsRoundTrip(cs[1..], pre + cs[0], post);
      assert cs == [cs[0]] + cs[1..];
    }
  }

  function EncodeKerningPairs(ks: seq<KerningPair>): (r: seq<byte>)
    ensures |r| == KERNING_PAIR_SIZE * |ks|
  {
    if |ks| == 0 then [] else EncodeKerningPair(ks[0]) + EncodeKerningPairs(ks[1..])
  }

  function DecodeKerningPairs(s: seq<byte>, at: nat, count: nat): (r: seq<KerningPair>)
    requires at + KERNING_PAIR_SIZE * count <= |s|
    ensures |r| == count
    decreases count
  {
    if count == 0 then []
    else [DecodeKerningPair(s, at)] + DecodeKerningPairs(s, at + KERNING_PAIR_SIZE, count - 1)
  }

  lemma {:induction false} KerningPairsRoundTrip(ks: seq<KerningPair>, pre: seq<byte>, post: seq<byte>)
    ensures |pre| + KERNING_PAIR_SIZE * |ks| <= |pre + EncodeKerningPairs(ks) + post|
    ensures DecodeKerningPairs(pre + EncodeKerningPairs(ks) + post, |pre|, |ks|) == ks
  {
    if |ks| > 0 {
      var s := pre + EncodeKerningPairs(ks) + post;
      var first := EncodeKerningPair(ks[0]);
      var rest := EncodeKerningPairs(ks[1..]) + post;
      assert s == pre + first + rest;
      KerningPairRoundTrip(ks[0], pre, rest);
      assert s == (pre + first) + EncodeKerningPairs(ks[1..]) + post;
      KerningPairsRoundTrip(ks[1..], pre + first, post);
      assert ks == [ks[0]] + ks[1..];
    }
  }

  /** One page of a compiled font: its size as a u32, then its bytes. */
  function EncodePage(p: seq<byte>): (r: seq<byte>)
    requires |p| < TWO_32
    ensures |r| == 4 + |p|
  {
    U32Bytes(|p|) + p
  }

  predicate PagesFit(ps: seq<seq<byte>>)
  {
    forall i :: 0 <= i < |ps| ==> |ps[i]| < TWO_32
  }

  function EncodePages(ps: seq<seq<byte>>): seq<byte>
    requires PagesFit(ps)
  {
    if |ps| == 0 then [] else EncodePage(ps[0]) + EncodePages(ps[1..])
  }

  /** The `count` pages stored from `at`, each behind its u32 size; None when one runs past the end. */
  function DecodePages(s: seq<byte>, at: nat, count: nat): (r: Option<seq<seq<byte>>>)
    ensures r.Some? ==> |r.value| == count
    decreases count
  {
    if count == 0 then Some([])
    else if at + 4 > |s| then None
    else
      var size := ReadU32(s, at);
      if at + 4 + size > |s| then None
      else
        match DecodePages(s, at + 4 + size, count - 1)
        case None => None
        case Some(rest) => Some([s[at + 4..at + 4 + size]] + rest)
  }

  /** One step of DecodePages, on a stream known only through what is stored at `at`. */
  lemma DecodePagesStep(s: seq<byte>, at: nat, count: nat, p: seq<byte>, rest: seq<seq<byte>>)
    requires count > 0 && at + 4 + |p| <= |s|
    requires ReadU32(s, at) == |p| && s[at + 4..at + 4 + |p|] == p
    requires DecodePages(s, at + 4 + |p|, count - 1) == Some(rest)
    ensures DecodePages(s, at, count) == Some([p] + rest)
  {
  }

  /** Pages whose bytes are stored from `at` are read back unchanged. */
  lemma {:induction false} PagesAt(ps: seq<seq<byte>>, s: seq<byte>, at: nat)
    requires PagesFit(ps)
    requires at + |EncodePages(ps)| <= |s| && s[at..at + |EncodePages(ps)|] == EncodePages(ps)
    ensures DecodePages(s, at, |ps|) == Some(ps)
  {
    if |ps| > 0 {
      var p := ps[0];
      var tail := EncodePages(ps[1..]);
      assert EncodePages(ps) == U32Bytes(|p|) + p + tail;
      PageRecordAt(s, at, p, tail);
      PagesAt(ps[1..], s, at + 4 + |p|);
      DecodePagesStep(s, at, |ps|, p, ps[1..]);
      assert ps == [p] + ps[1..];
    }
  }

  /** The size, the bytes and the rest of a page record stored at `at`. */
  lemma PageRecordAt(s: seq<byte>, at: nat, p: seq<byte>, tail: seq<byte>)
    requires |p| < TWO_32 && at + 4 + |p| + |tail| <= |s|
    requires s[at..at + 4 + |p| + |tail|] == U32Bytes(|p|) + p + tail
    ensures ReadU32(s, at) == |p|
    ensures s[at + 4..at + 4 + |p|] == p
    ensures s[at + 4 + |p|..at + 4 + |p| + |tail|] == tail
  {
    var e := U32Bytes(|p|) + p + tail;
    SubSlice(s, at, e, 0, 4);
    assert e[0..4] == U32Bytes(|p|);
    U32At(|p|, s, at);
    SubSlice(s, at, e, 4, 4 + |p|);
    assert e[4..4 + |p|] == p;
    SubSlice(s, at, e, 4 + |p|, |e|);
    assert e[4 + |p|..|e|] == tail;
  }

  lemma PagesRoundTrip(ps: seq<seq<byte>>, pre: seq<byte>, post: seq<byte>)
    requires PagesFit(ps)
    ensures DecodePages(pre + EncodePages(ps) + post, |pre|, |ps|) == Some(ps)
  {
    var s := pre + EncodePages(ps) + post;
    SliceRoundTrip(EncodePages(ps), pre, post);
    PagesAt(ps, s, |pre|);
  }

  /** Everything a compiled font holds. */
  datatype FontContents = FontContents(
    common: CommonBlock, chars: seq<CharRecord>, kerningPairs: seq<KerningPair>,
    header: TextureHeader, pages: seq<seq<byte>>)

  // Where each part of a compiled font starts, as the reader computes it from the common block.

  function KerningOffset(c: CommonBlock): nat
  {
    COMMON_SIZE + CHAR_SIZE * c.charsCount
  }

  function HeaderOffset(c: CommonBlock): nat
  {
    KerningOffset(c) + (if c.kerningPairsCount != 0 then KERNING_PAIR_SIZE * c.kerningPairsCount else 0)
  }

  function PagesOffset(c: CommonBlock): nat
  {
    HeaderOffset(c) + HEADER_SIZE
  }

  /** Each part of the file starts at or after the end of the one before it. */
  lemma OffsetsIncrease(c: CommonBlock)
    ensures 0 < COMMON_SIZE <= KerningOffset(c) <= HeaderOffset(c) < PagesOffset(c)
    ensures c.kerningPairsCount != 0 ==> KerningOffset(c) < HeaderOffset(c)
  {
  }

  /** A file the reader walks without reading past its end. */
  predicate FontFits(s: seq<byte>)
  {
    COMMON_SIZE <= |s|
    && var c := DecodeCommon(s, 0);
    PagesOffset(c) <= |s| && DecodePages(s, PagesOffset(c), c.pages).Some?
  }

  /**
   * What the reader finds in a file: the common block, the chars and kerning
   * pairs it counts, the texture header, and the pages it counts.
   */
  function DecodeFont(s: seq<byte>): (r: FontContents)
    requires FontFits(s)
    ensures |r.chars| == r.common.charsCount && |r.pages| == r.common.pages
    ensures r.common.kerningPairsCount != 0 ==> |r.kerningPairs| == r.common.kerningPairsCount
    ensures r.common.kerningPairsCount == 0 ==> r.kerningPairs == []
  {
    var c := DecodeCommon(s, 0);
    FontContents(
      c,
      DecodeChars(s, COMMON_SIZE, c.charsCount),
      if c.kerningPairsCount != 0 then DecodeKerningPairs(s, KerningOffset(c), c.kerningPairsCount) else [],
      DecodeHeader(s, HeaderOffset(c)),
      DecodePages(s, PagesOffset(c), c.pages).value)
  }

  /** The kerning pairs block, written only when there are kerning pairs. */
  function KerningBytes(ks: seq<KerningPair>): (r: seq<byte>)
    ensures |r| == KERNING_PAIR_SIZE * |ks|
  {
    if |ks| > 0 then EncodeKerningPairs(ks) else []
  }

  /** The bytes of a compiled font in writing order. */
  function EncodeFont(f: FontContents): seq<byte>
    requires PagesFit(f.pages)
  {
    EncodeCommon(f.common) + EncodeChars(f.chars) + KerningBytes(f.kerningPairs)
    + EncodeHeader(f.header) + EncodePages(f.pages)
  }

  /** The counts in the common block agree with the parts that follow it. */
  predicate Consistent(f: FontContents)
  {
    f.common.charsCount == |f.chars|
    && f.common.kerningPairsCount == |f.kerningPairs|
    && f.common.pages == |f.pages|
    && PagesFit(f.pages)
  }

  /** Reading a written font gives back everything that was written. */
  lemma FontRoundTrip(f: FontContents)
    requires Consistent(f)
    ensures FontFits(EncodeFont(f)) && DecodeFont(EncodeFont(f)) == f
  {
    FontLayout(f);
    FontFromParts(f, EncodeFont(f));
  }

  /** s holds f's parts at the offsets f's common block gives. */
  predicate PartsAt(f: FontContents, s: seq<byte>)
    requires PagesFit(f.pages)
  {
    var c := f.common;
    PagesOffset(c) + |EncodePages(f.pages)| == |s|
    && s[0..COMMON_SIZE] == EncodeCommon(c)
    && s[COMMON_SIZE..KerningOffset(c)] == EncodeChars(f.chars)
    && s[KerningOffset(c)..HeaderOffset(c)] == KerningBytes(f.kerningPairs)
    && s[HeaderOffset(c)..PagesOffset(c)] == EncodeHeader(f.header)
    && s[PagesOffset(c)..|s|] == EncodePages(f.pages)
  }

  /** Where each part of a written font lies. */
  lemma FontLayout(f: FontContents)
    requires Consistent(f)
    ensures PartsAt(f, EncodeFont(f))
  {
    Slices(EncodeCommon(f.common), EncodeChars(f.chars), KerningBytes(f.kerningPairs),
      EncodeHeader(f.header), EncodePages(f.pages));
  }

  /** Five pieces written one after the other are found again at their running offsets. */
  lemma Slices(a: seq<byte>, b: seq<byte>, k: seq<byte>, h: seq<byte>, p: seq<byte>)
    ensures var s := a + b + k + h + p;
      var o1 := |a|;
      var o2 := o1 + |b|;
      var o3 := o2 + |k|;
      var o4 := o3 + |h|;
      o4 + |p| == |s|
      && s[0..o1] == a && s[o1..o2] == b && s[o2..o3] == k && s[o3..o4] == h && s[o4..o4 + |p|] == p
  {
    var s := a + b + k + h + p;
    assert s == [] + a + (b + k + h + p);
    SliceRoundTrip(a, [], b + k + h + p);
    assert s == a + b + (k + h + p);
    SliceRoundTrip(b, a, k + h + p);
    assert s == (a + b) + k + (h + p);
    SliceRoundTrip(k, a + b, h + p);
    assert s == (a + b + k) + h + p;
    SliceRoundTrip(h, a + b + k, p);
    assert s == (a + b + k + h) + p + [];
    SliceRoundTrip(p, a + b + k + h, []);
  }

  /** A stream holding f's parts where the common block says is read as f. */
  lemma FontFromParts(f: FontContents, s: seq<byte>)
    requires Consistent(f) && PartsAt(f, s)
    ensures FontFits(s) && DecodeFont(s) == f
  {
    FontFrontParts(f, s);
    FontBackParts(f, s);
    DecodeFontParts(s, f);
  }

  /** The common block, the chars and the kerning pairs of a stream holding f's parts. */
  lemma FontFrontParts(f: FontContents, s: seq<byte>)
    requires Consistent(f) && PartsAt(f, s)
    ensures COMMON_SIZE <= |s| && DecodeCommon(s, 0) == f.common
    ensures KerningOffset(f.common) <= |s| && DecodeChars(s, COMMON_SIZE, |f.chars|) == f.chars
    ensures HeaderOffset(f.common) <= |s|
    ensures |f.kerningPairs| > 0 ==> DecodeKerningPairs(s, KerningOffset(f.common), |f.kerningPairs|) == f.kerningPairs
  {
    var c := f.common;
    CommonAt(c, s, 0, COMMON_SIZE);
    CharsAt(f.chars, s, COMMON_SIZE, KerningOffset(c));
    if |f.kerningPairs| > 0 {
      KerningPairsAt(f.kerningPairs, s, KerningOffset(c), HeaderOffset(c));
    }
  }

  /** The texture header and the pages of a stream holding f's parts. */
  lemma FontBackParts(f: FontContents, s: seq<byte>)
    requires Consistent(f) && PartsAt(f, s)
    ensures PagesOffset(f.common) <= |s| && DecodeHeader(s, HeaderOffset(f.common)) == f.header
    ensures DecodePages(s, PagesOffset(f.common), |f.pages|) == Some(f.pages)
  {
    var c := f.common;
    HeaderAt(f.header, s, HeaderOffset(c), PagesOffset(c));
    PagesBetween(f.pages, s, PagesOffset(c), |s|);
  }

  /** A stream whose parts, at the offsets its common block gives, hold f's parts is read as f. */
  lemma DecodeFontParts(s: seq<byte>, f: FontContents)
    requires COMMON_SIZE <= |s| && DecodeCommon(s, 0) == f.common
    requires var c := f.common;
      PagesOffset(c) <= |s|
      && DecodeChars(s, COMMON_SIZE, c.charsCount) == f.chars
      && (c.kerningPairsCount != 0 ==> DecodeKerningPairs(s, KerningOffset(c), c.kerningPairsCount) == f.kerningPairs)
      && (c.kerningPairsCount == 0 ==> f.kerningPairs == [])
      && DecodeHeader(s, HeaderOffset(c)) == f.header
      && DecodePages(s, PagesOffset(c), c.pages) == Some(f.pages)
    ensures FontFits(s) && DecodeFont(s) == f
  {
  }

  // Each part of a font, stored between two known offsets, reads back unchanged.

  lemma CommonAt(c: CommonBlock, s: seq<byte>, at: nat, end: nat)
    requires end == at + COMMON_SIZE <= |s| && s[at..end] == EncodeCommon(c)
    ensures DecodeCommon(s, at) == c
  {
    Around(s, at, EncodeCommon(c));
    CommonRoundTrip(c, s[..at], s[end..]);
  }

  lemma CharsAt(cs: seq<CharRecord>, s: seq<byte>, at: nat, end: nat)
    requires end == at + CHAR_SIZE * |cs| <= |s| && s[at..end] == EncodeChars(cs)
    ensures DecodeChars(s, at, |cs|) == cs
  {
    Around(s, at, EncodeChars(cs));
    CharsRoundTrip(cs, s[..at], s[end..]);
  }

  lemma KerningPairsAt(ks: seq<KerningPair>, s: seq<byte>, at: nat, end: nat)
    requires 0 < |ks| && end == at + KERNING_PAIR_SIZE * |ks| <= |s| && s[at..end] == KerningBytes(ks)
    ensures DecodeKerningPairs(s, at, |ks|) == ks
  {
    Around(s, at, EncodeKerningPairs(ks));
    KerningPairsRoundTrip(ks, s[..at], s[end..]);
  }

  lemma HeaderAt(h: TextureHeader, s: seq<byte>, at: nat, end: nat)
    requires end == at + HEADER_SIZE <= |s| && s[at..end] == EncodeHeader(h)
    ensures DecodeHeader(s, at) == h
  {
    Around(s, at, EncodeHeader(h));
    HeaderRoundTrip(h, s[..at], s[end..]);
  }

  lemma PagesBetween(ps: seq<seq<byte>>, s: seq<byte>, at: nat, end: nat)
    requires PagesFit(ps)
    requires end == at + |EncodePages(ps)| <= |s| && s[at..end] == EncodePages(ps)
    ensures DecodePages(s, at, |ps|) == Some(ps)
  {
    PagesAt(ps, s, at);
  }
}
