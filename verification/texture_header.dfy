/**
 * The header in front of a compiled texture. The struct's declaration is
 * not part of this model; the fields are those the texture reader and the
 * font compiler use, laid out as six consecutive little-endian u32 values.
 */
module TextureHeaderLayout {
  import opened Bytes

  const HEADER_SIZE: nat := 24

  datatype TextureHeader = TextureHeader(
    width: u32, height: u32, depth: u32, mipCount: u32, textureFormat: u32, isLinear: bool)

  /** The header's six fields as u32 values, in layout order. */
  function Fields(h: TextureHeader): (r: seq<u32>)
    ensures |r| == 6
  {
    [h.width, h.height, h.depth, h.mipCount, h.textureFormat, if h.isLinear then 1 else 0]
  }

  /** The header's bytes. */
  function EncodeHeader(h: TextureHeader): (r: seq<byte>)
    ensures |r| == HEADER_SIZE
  {
    U32sBytes(Fields(h))
  }

  /** `*reinterpret_cast<TextureHeader*>(&bytes[at])`. */
  function DecodeHeader(s: seq<byte>, at: nat): TextureHeader
    requires at + HEADER_SIZE <= |s|
  {
    TextureHeader(ReadU32(s, at), ReadU32(s, at + 4), ReadU32(s, at + 8),
      ReadU32(s, at + 12), ReadU32(s, at + 16), ReadU32(s, at + 20) != 0)
  }

  /** A header written anywhere in a byte stream reads back unchanged. */
  lemma HeaderRoundTrip(h: TextureHeader, pre: seq<byte>, post: seq<byte>)
    ensures |pre| + HEADER_SIZE <= |pre + EncodeHeader(h) + post|
    ensures DecodeHeader(pre + EncodeHeader(h) + post, |pre|) == h
  {
    var s := pre + EncodeHeader(h) + post;
    U32sRoundTrip(Fields(h), pre, post);
    ReadU32sIndex(s, |pre|, 6, 0);
    ReadU32sIndex(s, |pre|, 6, 1);
    ReadU32sIndex(s, |pre|, 6, 2);
    ReadU32sIndex(s, |pre|, 6, 3);
    ReadU32sIndex(s, |pre|, 6, 4);
    ReadU32sIndex(s, |pre|, 6, 5);
  }
}
