/**
 * The compiled texture reader (core/texture/texture_binary_reader.cpp): a
 * header, a table of Depth * MipCount u32 sizes in slice-major order, then
 * the pixel bytes of every (slice, mip) one after the other.
 */
module TextureBinaryReading {
  import opened Bytes
  import opened Wrappers
  import opened TextureHeaderLayout

  /** The sum of some table entries. */
  function Sum(s: seq<u32>): nat
  {
    if |s| == 0 then 0 else Sum(s[..|s| - 1]) + s[|s| - 1]
  }

  lemma SumSnoc(s: seq<u32>, i: nat)
    requires i < |s|
    ensures Sum(s[..i + 1]) == Sum(s[..i]) + s[i]
  {
    assert s[..i + 1][..i] == s[..i];
  }

  lemma WholePrefix(s: seq<u32>, n: nat)
    requires n == |s|
    ensures s[..n] == s
  {
  }

  /** A longer prefix never sums to less. */
  lemma {:induction false} SumPrefixMonotone(s: seq<u32>, i: nat, j: nat)
    requires i <= j <= |s|
    ensures Sum(s[..i]) <= Sum(s[..j])
    decreases j - i
  {
    if i < j {
      SumSnoc(s, j - 1);
      SumPrefixMonotone(s, i, j - 1);
    }
  }

  /**
   * The product a * b, by repeated addition: the index arithmetic below goes
   * through the lemmas about it rather than through general multiplication.
   */
  function Mul(a: nat, b: nat): nat
  {
    if a == 0 then 0 else Mul(a - 1, b) + b
  }

  lemma {:induction false} MulIsProduct(a: nat, b: nat)
    ensures Mul(a, b) == a * b
  {
    if a > 0 {
      MulIsProduct(a - 1, b);
    }
  }

  lemma {:induction false} MulMonotone(a: nat, a': nat, b: nat)
    requires a <= a'
    ensures Mul(a, b) <= Mul(a', b)
    decreases a' - a
  {
    if a < a' {
      MulMonotone(a, a' - 1, b);
    }
  }

  /** The slice-major index of (slice, mip) is an index of the table. */
  lemma IndexInTable(slice: nat, mipLevel: nat, depth: nat, m: nat)
    requires slice < depth && mipLevel < m
    ensures Mul(slice, m) + mipLevel < Mul(depth, m)
  {
    MulMonotone(slice + 1, depth, m);
  }

  /** ReadTexture's GetMipsSize(Depth - 1, MipCount - 1) ends at the last entry of the table. */
  lemma LastIndexOfTable(depth: nat, m: nat)
    requires 1 <= depth && 1 <= m && Mul(depth, m) < TWO_32
    ensures (Mul(depth - 1, m) + (m - 1)) % TWO_32 == Mul(depth, m) - 1
  {
  }

  /**
   * The index GetPixels passes for the entry before (slice, mip): for mip 0
   * of a later slice, `mipLevel - 1` wraps to 2^32 - 1, and the unsigned sum
   * wraps back to the last entry of the previous slice.
   */
  lemma PreviousIndex(slice: nat, mipLevel: nat, depth: nat, m: nat)
    requires slice < depth && mipLevel < m && Mul(depth, m) < TWO_32
    requires slice > 0 || mipLevel > 0
    ensures (Mul(slice, m) + (mipLevel - 1) % TWO_32) % TWO_32 == Mul(slice, m) + mipLevel - 1
  {
    IndexInTable(slice, mipLevel, depth, m);
    var x := Mul(slice, m) + mipLevel - 1;
    if mipLevel == 0 {
      MulMonotone(1, slice, m);
      assert (mipLevel - 1) % TWO_32 == TWO_32 - 1;
      ModWrap(x);
    } else {
      ModIdentity(mipLevel - 1);
      ModIdentity(x);
    }
  }

  lemma ModWrap(y: nat)
    requires y < TWO_32
    ensures (y + TWO_32) % TWO_32 == y
  {
  }

  /** Table form of RegionsContiguous. */
  lemma TableContiguous(s: seq<u32>, depth: nat, m: nat, slice: nat, mipLevel: nat)
    requires |s| == Mul(depth, m) && slice < depth && mipLevel < m
    ensures Mul(slice, m) + mipLevel < |s|
    ensures var k := Mul(slice, m) + mipLevel;
      var next := Sum(s[..k]) + s[k];
      (mipLevel + 1 < m ==> Sum(s[..Mul(slice, m) + (mipLevel + 1)]) == next)
      && (mipLevel + 1 == m && slice + 1 < depth ==> Sum(s[..Mul(slice + 1, m) + 0]) == next)
      && (mipLevel + 1 == m && slice + 1 == depth ==> next == Sum(s))
  {
    var k := Mul(slice, m) + mipLevel;
    IndexInTable(slice, mipLevel, depth, m);
    SumSnoc(s, k);
    if mipLevel + 1 == m && slice + 1 == depth {
      assert s[..k + 1] == s;
    }
  }

  /** Adding to a sum kept mod 2^32 is adding to the sum. */
  lemma ModAdd(a: nat, b: nat)
    ensures (a % TWO_32 + b) % TWO_32 == (a + b) % TWO_32
  {
  }

  lemma ModIdentity(x: nat)
    requires x < TWO_32
    ensures x % TWO_32 == x
  {
  }

  /** The (slice, mip) entry lies within the table and its region within the total. */
  lemma RegionInTable(s: seq<u32>, depth: nat, m: nat, slice: nat, mipLevel: nat)
    requires |s| == Mul(depth, m) && slice < depth && mipLevel < m
    ensures Mul(slice, m) + mipLevel < |s|
    ensures Sum(s[..Mul(slice, m) + mipLevel]) + s[Mul(slice, m) + mipLevel] <= Sum(s)
  {
    var k := Mul(slice, m) + mipLevel;
    IndexInTable(slice, mipLevel, depth, m);
    SumSnoc(s, k);
    SumPrefixMonotone(s, k + 1, |s|);
    assert s[..|s|] == s;
  }

  /** What a compiled texture file guarantees: the reads of ReadTexture stay inside it. */
  predicate WellFormedTexture(file: seq<byte>)
  {
    HEADER_SIZE <= |file|
    && var h := DecodeHeader(file, 0);
    var n := Mul(h.depth, h.mipCount);
    1 <= h.depth && 1 <= h.mipCount && n < TWO_32
    && HEADER_SIZE + 4 * n <= |file|
    && var total := Sum(ReadU32s(file, HEADER_SIZE, n));
    total < TWO_32 && HEADER_SIZE + 4 * n + total <= |file|
  }

  /** The slice-major index of (slices, mipLevels) in the source's 32-bit unsigned arithmetic. */
  function WrappedIndex(mipCount: nat, slices: nat, mipLevels: nat): u32
  {
    (Mul(slices, mipCount) + mipLevels) % TWO_32
  }

  /** ReadTexture's GetMipsSize(Depth - 1, MipCount - 1) sums the whole table of a well-formed file. */
  lemma TableOfTexture(file: seq<byte>)
    requires WellFormedTexture(file)
    ensures var h := DecodeHeader(file, 0);
      var n := Mul(h.depth, h.mipCount);
      var table := ReadU32s(file, HEADER_SIZE, n);
      1 <= h.depth && 1 <= h.mipCount && |table| == n < TWO_32
      && Sum(table) < TWO_32 && HEADER_SIZE + 4 * n + Sum(table) <= |file|
      && (Mul(h.depth - 1, h.mipCount) + (h.mipCount - 1)) % TWO_32 + 1 == n
      && table[..n] == table && Sum(table) % TWO_32 == Sum(table)
  {
    var h := DecodeHeader(file, 0);
    var n := Mul(h.depth, h.mipCount);
    var table := ReadU32s(file, HEADER_SIZE, n);
    LastIndexOfTable(h.depth, h.mipCount);
    WholePrefix(table, n);
    ModIdentity(Sum(table));
  }

  class TextureBinaryReader {
    /** m_TextureBinaryData */
    var data: seq<byte>
    /** m_Header */
    var header: TextureHeader
    /** m_MipSizes */
    var mipSizes: seq<u32>
    /** m_Pixels, as a start index into `data` and a length. */
    var pixelsStart: nat
    var pixelsSize: nat

    /** The state a successful ReadTexture leaves: a full table and a pixel span inside the data. */
    predicate Loaded()
      reads this
    {
      1 <= header.depth && 1 <= header.mipCount
      && |mipSizes| == Mul(header.depth, header.mipCount) < TWO_32
      && pixelsSize == Sum(mipSizes) < TWO_32
      && pixelsStart + pixelsSize <= |data|
    }

    /**
     * The states in which GetPixels stays in bounds: loaded, or a header
     * with no slices or no mips (the zero header of a fresh reader).
     */
    predicate Valid()
      reads this
    {
      Loaded() || header.depth == 0 || header.mipCount == 0
    }

    constructor ()
      ensures data == [] && mipSizes == [] && pixelsSize == 0
      ensures header == TextureHeader(0, 0, 0, 0, 0, false)
      ensures Valid()
    {
      data := [];
      header := TextureHeader(0, 0, 0, 0, 0, false);
      mipSizes := [];
      pixelsStart := 0;
      pixelsSize := 0;
    }

    /** Index of the last entry GetMipsSize adds, in the source's unsigned arithmetic. */
    function LastIndex(slices: u32, mipLevels: u32): u32
      reads this
    {
      WrappedIndex(header.mipCount, slices, mipLevels)
    }

    /** GetMipsSize (lines 38-46): the entries up to and including the last index, summed mod 2^32. */
    method GetMipsSize(slices: u32, mipLevels: u32) returns (mipsSize: u32)
      requires LastIndex(slices, mipLevels) < |mipSizes|
      ensures mipsSize == Sum(mipSizes[..LastIndex(slices, mipLevels) + 1]) % TWO_32
    {
      var last := (Mul(slices, header.mipCount) + mipLevels) % TWO_32;
      mipsSize := 0;
      var i := 0;
      while i <= last
        invariant 0 <= i <= last + 1
        invariant mipsSize == Sum(mipSizes[..i]) % TWO_32
      {
        SumSnoc(mipSizes, i);
        ModAdd(Sum(mipSizes[..i]), mipSizes[i]);
        mipsSize := (mipsSize + mipSizes[i]) % TWO_32;
        i := i + 1;
      }
    }

    /** ReadTexture (lines 4-25); `file` is the file's bytes, None when it cannot be read. */
    method ReadTexture(file: Option<seq<byte>>) returns (ok: bool)
      requires file.Some? ==> WellFormedTexture(file.value)
      modifies this
      ensures ok <==> file.Some?
      ensures !ok ==> data == [] && header == old(header) && mipSizes == old(mipSizes)
      ensures ok ==> LoadedFrom(file.value) && Loaded()
    {
      data := [];
      if file.None? {
        return false;
      }
      var bytes := file.value;
      var h := DecodeHeader(bytes, 0);
      var n := Mul(h.depth, h.mipCount);
      var table := ReadU32s(bytes, HEADER_SIZE, n);
      TableOfTexture(bytes);
      data := bytes;
      header := h;
      mipSizes := table;
      var totalSize := GetMipsSize(h.depth - 1, h.mipCount - 1);
      assert totalSize == Sum(table);
      pixelsStart := HEADER_SIZE + 4 * n;
      pixelsSize := totalSize;
      LoadedFromIsLoaded(bytes);
      return true;
    }

    /**
     * The state ReadTexture leaves for a file: its bytes, the header at its
     * start, the size table after the header, the pixels after the table.
     */
    predicate LoadedFrom(file: seq<byte>)
      reads this
    {
      data == file && HEADER_SIZE <= |file|
      && header == DecodeHeader(file, 0)
      && HEADER_SIZE + 4 * Mul(header.depth, header.mipCount) <= |file|
      && mipSizes == ReadU32s(file, HEADER_SIZE, Mul(header.depth, header.mipCount))
      && pixelsStart == HEADER_SIZE + 4 * |mipSizes|
      && pixelsSize == Sum(mipSizes)
    }

    /** A well-formed file, once read, leaves the reader loaded. */
    lemma LoadedFromIsLoaded(file: seq<byte>)
      requires WellFormedTexture(file) && LoadedFrom(file)
      ensures Loaded()
    {
      TableOfTexture(file);
    }

    /** The bytes of all mips before the (slice, mip) one, in slice-major order. */
    function RegionOffset(slice: nat, mipLevel: nat): nat
      requires Loaded() && slice < header.depth && mipLevel < header.mipCount
      reads this
    {
      IndexInTable(slice, mipLevel, header.depth, header.mipCount);
      Sum(mipSizes[..Mul(slice, header.mipCount) + mipLevel])
    }

    /** The table entry of (slice, mip). */
    function RegionSize(slice: nat, mipLevel: nat): nat
      requires Loaded() && slice < header.depth && mipLevel < header.mipCount
      reads this
    {
      IndexInTable(slice, mipLevel, header.depth, header.mipCount);
      mipSizes[Mul(slice, header.mipCount) + mipLevel]
    }

    /** GetPixels (lines 27-36). */
    method GetPixels(slice: u32, mipLevel: u32) returns (pixels: seq<byte>)
      requires Valid()
      ensures slice >= header.depth || mipLevel >= header.mipCount ==> pixels == []
      ensures slice < header.depth && mipLevel < header.mipCount ==>
        Loaded() && pixels == PixelRegion(slice, mipLevel)
    {
      if slice >= header.depth || mipLevel >= header.mipCount {
        return [];
      }
      var k := Mul(slice, header.mipCount) + mipLevel;
      PixelsAt(slice, mipLevel);
      var mipSize := mipSizes[k];
      var mipOffset: u32;
      if slice == 0 && mipLevel == 0 {
        mipOffset := 0;
      } else {
        // mipLevel - 1 is unsigned: for mip 0 of a later slice it wraps to 2^32 - 1.
        EntriesBefore(slice, mipLevel);
        mipOffset := GetMipsSize(slice, (mipLevel - 1) % TWO_32);
        ModIdentity(Sum(mipSizes[..k]));
      }
      pixels := data[pixelsStart + mipOffset .. pixelsStart + mipOffset + mipSize];
    }

    /** Where the (slice, mip) region lies. */
    lemma PixelsAt(slice: nat, mipLevel: nat)
      requires Loaded() && slice < header.depth && mipLevel < header.mipCount
      ensures var k := Mul(slice, header.mipCount) + mipLevel;
        k < |mipSizes|
        && Sum(mipSizes[..k]) < TWO_32
        && pixelsStart + Sum(mipSizes[..k]) + mipSizes[k] <= |data|
        && PixelRegion(slice, mipLevel) == data[pixelsStart + Sum(mipSizes[..k]) .. pixelsStart + Sum(mipSizes[..k]) + mipSizes[k]]
        && (slice == 0 && mipLevel == 0 ==> Sum(mipSizes[..k]) == 0)
    {
      RegionInTable(mipSizes, header.depth, header.mipCount, slice, mipLevel);
    }

    /** The entries GetMipsSize(slice, mipLevel - 1) adds are exactly those before (slice, mip). */
    lemma EntriesBefore(slice: nat, mipLevel: nat)
      requires Loaded() && slice < header.depth && mipLevel < header.mipCount
      requires slice > 0 || mipLevel > 0
      ensures LastIndex(slice, (mipLevel - 1) % TWO_32) + 1 == Mul(slice, header.mipCount) + mipLevel
    {
      PreviousIndex(slice, mipLevel, header.depth, header.mipCount);
    }

    /** The pixel bytes of (slice, mip): its table entry's worth, after all earlier regions. */
    function PixelRegion(slice: nat, mipLevel: nat): (r: seq<byte>)
      requires Loaded() && slice < header.depth && mipLevel < header.mipCount
      reads this
      ensures RegionOffset(slice, mipLevel) + RegionSize(slice, mipLevel) <= pixelsSize
      ensures |r| == RegionSize(slice, mipLevel)
    {
      RegionInTable(mipSizes, header.depth, header.mipCount, slice, mipLevel);
      var offset := RegionOffset(slice, mipLevel);
      data[pixelsStart + offset .. pixelsStart + offset + RegionSize(slice, mipLevel)]
    }

    /** Regions of consecutive (slice, mip) pairs are adjacent: each starts where the previous ends. */
    lemma RegionsContiguous(slice: nat, mipLevel: nat)
      requires Loaded() && slice < header.depth && mipLevel < header.mipCount
      ensures var next := RegionOffset(slice, mipLevel) + RegionSize(slice, mipLevel);
        (mipLevel + 1 < header.mipCount ==> RegionOffset(slice, mipLevel + 1) == next)
        && (mipLevel + 1 == header.mipCount && slice + 1 < header.depth ==> RegionOffset(slice + 1, 0) == next)
        && (mipLevel + 1 == header.mipCount && slice + 1 == header.depth ==> next == pixelsSize)
    {
      TableContiguous(mipSizes, header.depth, header.mipCount, slice, mipLevel);
    }
  }
}
