/**
 * The font reader (core/font/font_binary_reader.cpp): it loads a compiled
 * font and walks it with a running offset, in the order module FontData
 * lays it out. Reading the file becomes the parameter `file`, None when the
 * file cannot be read.
 */
module FontReader {
  import opened Bytes
  import opened Wrappers
  import opened TextureHeaderLayout
  import opened FontData

  class FontBinaryReader {
    /** The bytes of the font file; the other fields are views into them. */
    var data: seq<byte>
    var common: CommonBlock
    var chars: seq<CharRecord>
    var kerningPairs: seq<KerningPair>
    var pagesHeader: TextureHeader
    var pageBytes: seq<seq<byte>>

    constructor()
      ensures data == [] && chars == [] && kerningPairs == [] && pageBytes == []
    {
      data := [];
      common := CommonBlock(0, 0, 0, 0, 0, 0, 0, 0, 0, 0, 0, 0);
      chars := [];
      kerningPairs := [];
      pagesHeader := TextureHeader(0, 0, 0, 0, 0, false);
      pageBytes := [];
    }

    /** The reader holds what DecodeFont finds in `file`; kerning pairs only when the file counts some. */
    ghost predicate HoldsFont(file: seq<byte>)
      requires FontFits(file)
      reads this
    {
      var f := DecodeFont(file);
      data == file && common == f.common && chars == f.chars && pagesHeader == f.header && pageBytes == f.pages
      && (f.common.kerningPairsCount != 0 ==> kerningPairs == f.kerningPairs)
    }

    /**
     * What the font compiler writes, the reader reads back: a reader that has
     * read the bytes of a consistent font holds that font's common block,
     * chars, texture header and pages, and its kerning pairs when it counts any.
     */
    lemma HoldsWrittenFont(f: FontContents)
      requires Consistent(f) && FontFits(EncodeFont(f)) && HoldsFont(EncodeFont(f))
      ensures common == f.common && chars == f.chars && pagesHeader == f.header && pageBytes == f.pages
      ensures f.common.kerningPairsCount != 0 ==> kerningPairs == f.kerningPairs
    {
      FontRoundTrip(f);
    }

    /**
     * ReadFont (lines 4-42). The file must be long enough for every read the
     * walk makes; the source reads it without checking. When the file counts
     * no kerning pairs, KerningPairs keeps what it held before.
     */
    method ReadFont(file: Option<seq<byte>>) returns (ok: bool)
      requires file.Some? ==> FontFits(file.value)
      modifies this
      ensures ok <==> file.Some?
      ensures !ok ==>
        data == [] && common == old(common) && chars == old(chars)
        && kerningPairs == old(kerningPairs) && pagesHeader == old(pagesHeader) && pageBytes == old(pageBytes)
      ensures ok ==> HoldsFont(file.value)
      ensures ok && DecodeFont(file.value).common.kerningPairsCount == 0 ==> kerningPairs == old(kerningPairs)
    {
      data := [];
      if file.None? {
        return false;
      }
      var bytes := file.value;
      var c, cs, ks, h, pages := WalkFont(bytes);
      data, common, chars, pagesHeader, pageBytes := bytes, c, cs, h, pages;
      if c.kerningPairsCount != 0 {
        kerningPairs := ks;
      }
      return true;
    }
  }

  /**
   * The offset walk of ReadFont (lines 11-39): common block, chars, kerning
   * pairs when counted, texture header, then the pages.
   */
  method WalkFont(bytes: seq<byte>)
    returns (c: CommonBlock, cs: seq<CharRecord>, ks: seq<KerningPair>, h: TextureHeader, pages: seq<seq<byte>>)
    requires FontFits(bytes)
    ensures c == DecodeFont(bytes).common && cs == DecodeFont(bytes).chars && h == DecodeFont(bytes).header
    ensures pages == DecodeFont(bytes).pages
    ensures c.kerningPairsCount != 0 ==> ks == DecodeFont(bytes).kerningPairs
  {
    FontWalk(bytes);
    var offset: nat := 0;

    c := DecodeCommon(bytes, 0);
    offset := offset + COMMON_SIZE;

    cs := DecodeChars(bytes, offset, c.charsCount);
    offset := offset + CHAR_SIZE * c.charsCount;
    assert offset == KerningOffset(c);

    ks := [];
    if c.kerningPairsCount != 0 {
      ks := DecodeKerningPairs(bytes, offset, c.kerningPairsCount);
      offset := offset + KERNING_PAIR_SIZE * c.kerningPairsCount;
    }

    assert offset == HeaderOffset(c);
    h := DecodeHeader(bytes, offset);
    offset := offset + HEADER_SIZE;

    pages := ReadPages(bytes, offset, c.pages);
    DecodedParts(bytes, c, cs, ks, h, pages);
  }

  /** The parts the walk reads are the parts of DecodeFont. */
  lemma DecodedParts(s: seq<byte>, c: CommonBlock, cs: seq<CharRecord>, ks: seq<KerningPair>, h: TextureHeader, ps: seq<seq<byte>>)
    requires FontFits(s) && c == DecodeCommon(s, 0)
    requires COMMON_SIZE + CHAR_SIZE * c.charsCount <= |s| && cs == DecodeChars(s, COMMON_SIZE, c.charsCount)
    requires c.kerningPairsCount != 0 ==>
      KerningOffset(c) + KERNING_PAIR_SIZE * c.kerningPairsCount <= |s|
      && ks == DecodeKerningPairs(s, KerningOffset(c), c.kerningPairsCount)
    requires HeaderOffset(c) + HEADER_SIZE <= |s| && h == DecodeHeader(s, HeaderOffset(c))
    requires DecodePages(s, PagesOffset(c), c.pages) == Some(ps)
    ensures DecodeFont(s).common == c && DecodeFont(s).chars == cs
    ensures DecodeFont(s).header == h && DecodeFont(s).pages == ps
    ensures c.kerningPairsCount != 0 ==> DecodeFont(s).kerningPairs == ks
  {
  }

  /** Where the walk over a file that fits finds each part: every read stays inside the file. */
  lemma FontWalk(s: seq<byte>)
    requires FontFits(s)
    ensures var c := DecodeCommon(s, 0);
      COMMON_SIZE + CHAR_SIZE * c.charsCount == KerningOffset(c)
      && (c.kerningPairsCount != 0 ==> KerningOffset(c) + KERNING_PAIR_SIZE * c.kerningPairsCount == HeaderOffset(c))
      && (c.kerningPairsCount == 0 ==> KerningOffset(c) == HeaderOffset(c))
      && HeaderOffset(c) + HEADER_SIZE == PagesOffset(c) <= |s|
      && DecodePages(s, PagesOffset(c), c.pages).Some?
  {
  }

  /**
   * The pages loop of ReadFont (lines 30-39): `count` entries, each a u32
   * size and then that many bytes, read with a running offset.
   */
  method ReadPages(data: seq<byte>, start: nat, count: nat) returns (pages: seq<seq<byte>>)
    requires DecodePages(data, start, count).Some?
    ensures pages == DecodePages(data, start, count).value
  {
    pages := seq(count, _ => []);
    var offset: nat := start;
    var i: nat := 0;
    ReadPagesStart(data, start, count, pages);
    while i < count
      invariant PagesReadUpTo(data, start, count, pages, offset, i)
    {
      PageSizeInside(data, start, count, pages, offset, i);
      var pixelsSize := ReadU32(data, offset);
      var pixelsAt := offset + 4;
      ReadPageStep(data, start, count, pages, offset, i, pixelsSize);
      pages := pages[i := data[pixelsAt..pixelsAt + pixelsSize]];
      offset := pixelsAt + pixelsSize;
      i := i + 1;
    }
    ReadPagesDone(data, start, count, pages, offset);
  }

  /**
   * The first i pages are read into `pages`, and the rest follow from
   * `offset`, which has moved at least one size field per page read.
   */
  ghost predicate PagesReadUpTo(data: seq<byte>, start: nat, count: nat, pages: seq<seq<byte>>, offset: nat, i: nat)
  {
    i <= count && |pages| == count && start + 4 * i <= offset
    && DecodePages(data, start, count).Some?
    && DecodePages(data, offset, count - i).Some?
    && pages[..i] + DecodePages(data, offset, count - i).value == DecodePages(data, start, count).value
  }

  lemma ReadPagesStart(data: seq<byte>, start: nat, count: nat, pages: seq<seq<byte>>)
    requires DecodePages(data, start, count).Some? && |pages| == count
    ensures PagesReadUpTo(data, start, count, pages, start, 0)
  {
    assert pages[..0] == [];
  }

  lemma PageSizeInside(data: seq<byte>, start: nat, count: nat, pages: seq<seq<byte>>, offset: nat, i: nat)
    requires PagesReadUpTo(data, start, count, pages, offset, i) && i < count
    ensures offset + 4 <= |data|
  {
  }

  lemma ReadPageStep(data: seq<byte>, start: nat, count: nat, pages: seq<seq<byte>>, offset: nat, i: nat, size: nat)
    requires PagesReadUpTo(data, start, count, pages, offset, i) && i < count
    requires offset + 4 <= |data| && size == ReadU32(data, offset)
    ensures offset + 4 + size <= |data|
    ensures PagesReadUpTo(data, start, count, pages[i := data[offset + 4..offset + 4 + size]], offset + 4 + size, i + 1)
  {
    var page := data[offset + 4..offset + 4 + size];
    var rest := DecodePages(data, offset + 4 + size, count - i - 1).value;
    assert DecodePages(data, offset, count - i).value == [page] + rest;
    assert pages[i := page][..i + 1] == pages[..i] + [page];
    assert (pages[..i] + [page]) + rest == pages[..i] + ([page] + rest);
  }

  lemma ReadPagesDone(data: seq<byte>, start: nat, count: nat, pages: seq<seq<byte>>, offset: nat)
    requires PagesReadUpTo(data, start, count, pages, offset, count)
    ensures pages == DecodePages(data, start, count).value
  {
    assert pages[..count] == pages;
    assert DecodePages(data, offset, 0) == Some([]);
    assert pages + [] == pages;
  }
}
