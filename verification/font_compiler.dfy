/**
 * The font compiler (font_compiler/font_compiler.cpp): it reads a binary
 * BMFont file (AngelCode format, version 3), a 4-byte identifier followed by
 * blocks of a 1-byte type and a u32 size, and writes the compiled font whose
 * layout module FontData describes. Image loading and texture conversion
 * belong to an external library and become the parameters `load` and
 * `convert`.
 */
module FontCompiler {
  import opened Bytes
  import opened Wrappers
  import opened FontData
  import opened TextureHeaderLayout

  // Block types (lines 12-19).
  const INFO: byte := 1
  const COMMON: byte := 2
  const PAGES: byte := 3
  const CHARS: byte := 4
  const KERNING_PAIRS: byte := 5

  /** Bytes of a common block that ReadCommonBlock reads: five u16 and five u8. */
  const BMF_COMMON_SIZE: nat := 15
  /** Bytes of one kerning pair in a BMFont file: u32, u32, i16 without padding. */
  const BMF_KERNING_SIZE: nat := 10

  /** `buffer[0..3]` is "BMF" and `buffer[3]` is version 3. */
  predicate IsBmf3(buf: seq<byte>)
    requires 4 <= |buf|
  {
    buf[0] == 'B' as byte && buf[1] == 'M' as byte && buf[2] == 'F' as byte && buf[3] == 3
  }

  // ---------------------------------------------------------------------
  // ReadData (lines 21-27)

  /** Reads the byte at `offset` and moves past it. */
  method ReadDataU8(buf: seq<byte>, offset: nat) returns (value: byte, next: nat)
    requires offset + 1 <= |buf|
    ensures next == offset + 1 && buf[offset..next] == [value]
  {
    value := buf[offset];
    next := offset + 1;
  }

  /** Reads the u32 stored at `offset` and moves past it. */
  method ReadDataU32(buf: seq<byte>, offset: nat) returns (value: u32, next: nat)
    requires offset + 4 <= |buf|
    ensures next == offset + 4 && buf[offset..next] == U32Bytes(value)
    ensures value == ReadU32(buf, offset)
  {
    value := ReadU32(buf, offset);
    next := offset + 4;
    ReadU32Bytes(buf, offset);
  }

  // ---------------------------------------------------------------------
  // The common block

  /** The BMFont bytes of the fields ReadCommonBlock reads. */
  function BmfCommonBytes(c: CommonBlock): (r: seq<byte>)
    ensures |r| == BMF_COMMON_SIZE
  {
    U16sBytes(Metrics(c)) + Channels(c)
  }

  /** ReadCommonBlock (lines 29-45): five u16, five u8; both counts stay 0. */
  function ReadCommonBlock(buf: seq<byte>, at: nat): CommonBlock
    requires at + BMF_COMMON_SIZE <= |buf|
  {
    CommonBlock(
      ReadU16(buf, at), ReadU16(buf, at + 2), ReadU16(buf, at + 4), ReadU16(buf, at + 6), ReadU16(buf, at + 8),
      buf[at + 10], buf[at + 11], buf[at + 12], buf[at + 13], buf[at + 14],
      0, 0)
  }

  /** A common block written in BMFont form reads back with its counts cleared. */
  lemma BmfCommonRoundTrip(c: CommonBlock, pre: seq<byte>, post: seq<byte>)
    ensures |pre| + BMF_COMMON_SIZE <= |pre + BmfCommonBytes(c) + post|
    ensures ReadCommonBlock(pre + BmfCommonBytes(c) + post, |pre|)
      == c.(charsCount := 0, kerningPairsCount := 0)
  {
    BmfCommonFieldsRead(c, pre, post);
  }

  /** The fields of a common block written in BMFont form, where ReadCommonBlock finds them. */
  lemma BmfCommonFieldsRead(c: CommonBlock, pre: seq<byte>, post: seq<byte>)
    ensures var s := pre + BmfCommonBytes(c) + post;
      |pre| + BMF_COMMON_SIZE <= |s|
      && ReadU16(s, |pre|) == c.lineHeight && ReadU16(s, |pre| + 2) == c.base
      && ReadU16(s, |pre| + 4) == c.scaleW && ReadU16(s, |pre| + 6) == c.scaleH
      && ReadU16(s, |pre| + 8) == c.pages
      && s[|pre| + 10..|pre| + 15] == Channels(c)
  {
    var s := pre + BmfCommonBytes(c) + post;
    var a := U16sBytes(Metrics(c));
    assert s == pre + a + (Channels(c) + post);
    U16sRoundTrip(Metrics(c), pre, Channels(c) + post);
    ReadU16sIndex(s, |pre|, 5, 0);
    ReadU16sIndex(s, |pre|, 5, 1);
    ReadU16sIndex(s, |pre|, 5, 2);
    ReadU16sIndex(s, |pre|, 5, 3);
    ReadU16sIndex(s, |pre|, 5, 4);
    assert s[|pre| + 10..|pre| + 15] == Channels(c);
  }

  // ---------------------------------------------------------------------
  // Page names

  /** The NUL-terminated string at `at`; None when no NUL follows before the end of the buffer. */
  function CString(buf: seq<byte>, at: nat): (r: Option<seq<byte>>)
    ensures r.Some? ==> at + |r.value| < |buf| && buf[at + |r.value|] == 0
    ensures r.Some? ==> buf[at..at + |r.value|] == r.value && 0 !in r.value
    decreases |buf| - at
  {
    if at >= |buf| then None
    else if buf[at] == 0 then Some([])
    else
      match CString(buf, at + 1)
      case None => None
      case Some(rest) => Some([buf[at]] + rest)
  }

  /** One step of CString, on a buffer known only through what is stored at `at`. */
  lemma CStringStep(buf: seq<byte>, at: nat, name: seq<byte>)
    requires 0 < |name| && at + |name| < |buf| && buf[at..at + |name|] == name && buf[at] != 0
    requires CString(buf, at + 1) == Some(name[1..])
    ensures CString(buf, at) == Some(name)
  {
    assert buf[at] == name[0];
    assert [name[0]] + name[1..] == name;
  }

  /** A name without NUL bytes, written with its terminator, reads back unchanged. */
  lemma {:induction false} CStringAt(buf: seq<byte>, at: nat, name: seq<byte>)
    requires 0 !in name && at + |name| < |buf| && buf[at..at + |name|] == name && buf[at + |name|] == 0
    ensures CString(buf, at) == Some(name)
    decreases |name|
  {
    if |name| > 0 {
      SubSlice(buf, at, name, 1, |name|);
      CStringAt(buf, at + 1, name[1..]);
      CStringStep(buf, at, name);
    }
  }

  /** `count` names read one after the other, each past the previous name's terminator. */
  function PageNames(buf: seq<byte>, at: nat, count: nat): (r: Option<seq<seq<byte>>>)
    ensures r.Some? ==> |r.value| == count
    decreases count
  {
    if count == 0 then Some([])
    else
      match CString(buf, at)
      case None => None
      case Some(name) =>
        match PageNames(buf, at + |name| + 1, count - 1)
        case None => None
        case Some(rest) => Some([name] + rest)
  }

  /**
   * ReadPagesBlock as written (lines 47-59): the offset advances by strlen
   * only, so it stops on the terminator of the name just read.
   */
  function PageNamesAsWritten(buf: seq<byte>, at: nat, count: nat): (r: Option<seq<seq<byte>>>)
    ensures r.Some? ==> |r.value| == count
    decreases count
  {
    if count == 0 then Some([])
    else
      match CString(buf, at)
      case None => None
      case Some(name) =>
        match PageNamesAsWritten(buf, at + |name|, count - 1)
        case None => None
        case Some(rest) => Some([name] + rest)
  }

  /** As written, every name after the first is empty, whatever the block holds. */
  lemma {:induction false} AsWrittenNamesAfterFirstEmpty(buf: seq<byte>, at: nat, count: nat, i: nat)
    requires PageNamesAsWritten(buf, at, count).Some? && 0 < i < count
    ensures PageNamesAsWritten(buf, at, count).value[i] == []
    decreases count
  {
    var name := CString(buf, at).value;
    var next := at + |name|;
    assert CString(buf, next) == Some([]);
    if i > 1 {
      EmptyNamesStay(buf, next, count - 1, i - 1);
    }
  }

  /** Once the walk stands on a NUL, it reads only empty names. */
  lemma {:induction false} EmptyNamesStay(buf: seq<byte>, at: nat, count: nat, i: nat)
    requires PageNamesAsWritten(buf, at, count).Some? && i < count && CString(buf, at) == Some([])
    ensures PageNamesAsWritten(buf, at, count).value[i] == []
    decreases count
  {
    if i > 0 {
      EmptyNamesStay(buf, at, count - 1, i - 1);
    }
  }

  /** A pages block "a\0b\0": as written the second name is read as "", corrected as "b". */
  lemma PageNamesCounterexample()
    ensures PageNamesAsWritten([97, 0, 98, 0], 0, 2) == Some([[97], []])
    ensures PageNames([97, 0, 98, 0], 0, 2) == Some([[97], [98]])
  {
    var buf: seq<byte> := [97, 0, 98, 0];
    assert CString(buf, 1) == Some([]);
    assert CString(buf, 3) == Some([]);
    assert [buf[2]] + [] == [98];
    assert CString(buf, 2) == Some([98]);
    assert [buf[0]] + [] == [97];
    assert CString(buf, 0) == Some([97]);
    var none: seq<seq<byte>> := [];
    assert PageNamesAsWritten(buf, 1, 0) == Some(none);
    assert [[]] + none == [[]];
    assert PageNamesAsWritten(buf, 1, 1) == Some([[]]);
    assert PageNamesAsWritten(buf, 0, 2) == Some([[97]] + [[]]);
    assert PageNames(buf, 4, 0) == Some(none);
    assert [[98]] + none == [[98]];
    assert PageNames(buf, 2, 1) == Some([[98]]);
    assert PageNames(buf, 0, 2) == Some([[97]] + [[98]]);
    assert [[97]] + [[]] == [[97], []];
    assert [[97]] + [[98]] == [[97], [98]];
  }

  /** Names, each followed by its NUL terminator. */
  function EncodeNames(names: seq<seq<byte>>): (r: seq<byte>)
  {
    if |names| == 0 then [] else names[0] + [0] + EncodeNames(names[1..])
  }

  predicate NoNul(names: seq<seq<byte>>)
  {
    forall i :: 0 <= i < |names| ==> 0 !in names[i]
  }

  /** Page names written with their terminators are read back unchanged. */
  lemma {:induction false} PageNamesAt(names: seq<seq<byte>>, buf: seq<byte>, at: nat, end: nat)
    requires NoNul(names)
    requires end == at + |EncodeNames(names)| <= |buf| && buf[at..end] == EncodeNames(names)
    ensures PageNames(buf, at, |names|) == Some(names)
  {
    if |names| > 0 {
      var name := names[0];
      var tail := EncodeNames(names[1..]);
      assert 0 !in name;
      assert NoNul(names[1..]) by {
        forall i | 0 <= i < |names[1..]| ensures 0 !in names[1..][i] {
          assert names[1..][i] == names[i + 1];
        }
      }
      NameSlices(buf, at, end, name, tail);
      CStringAt(buf, at, name);
      PageNamesAt(names[1..], buf, at + |name| + 1, end);
      PageNamesCons(buf, at, |names|, name, names[1..]);
      assert names == [name] + names[1..];
    }
  }

  /** Where a name, its terminator and the following names lie in a buffer holding all three. */
  lemma NameSlices(buf: seq<byte>, at: nat, end: nat, name: seq<byte>, tail: seq<byte>)
    requires end == at + |name + [0] + tail| <= |buf| && buf[at..end] == name + [0] + tail
    ensures at + |name| < |buf| && buf[at..at + |name|] == name && buf[at + |name|] == 0
    ensures end == at + |name| + 1 + |tail| && buf[at + |name| + 1..end] == tail
  {
    var e := name + [0] + tail;
    assert buf[at..at + |name|] == buf[at..end][..|name|];
    assert e[..|name|] == name;
    assert buf[at + |name|] == e[|name|];
    assert buf[at + |name| + 1..end] == buf[at..end][|name| + 1..];
    assert e[|name| + 1..] == tail;
  }

  /** ReadPagesBlock (lines 47-59), with the offset moved past each terminator. */
  method ReadPagesBlock(buf: seq<byte>, at: nat, pageCount: u16, names: seq<seq<byte>>)
    returns (out: seq<seq<byte>>)
    requires PageNames(buf, at, pageCount).Some?
    ensures out == names + PageNames(buf, at, pageCount).value
  {
    out := names;
    var offset: nat := at;
    var remaining: nat := pageCount;
    while remaining > 0
      invariant NamesReadUpTo(buf, at, pageCount, names, out, offset, remaining)
    {
      var name := CString(buf, offset).value;
      ReadNameStep(buf, at, pageCount, names, out, offset, remaining);
      out := out + [name];
      offset := offset + |name| + 1;
      remaining := remaining - 1;
    }
    NamesReadDone(buf, at, pageCount, names, out, offset);
  }

  lemma NamesReadDone(buf: seq<byte>, at: nat, count: nat, names: seq<seq<byte>>, out: seq<seq<byte>>, offset: nat)
    requires NamesReadUpTo(buf, at, count, names, out, offset, 0)
    ensures out == names + PageNames(buf, at, count).value
  {
    assert PageNames(buf, offset, 0) == Some([]);
    assert out + [] == out;
  }

  /** `out` holds `names` and the names read so far; `remaining` names follow from `offset`. */
  predicate NamesReadUpTo(buf: seq<byte>, at: nat, count: nat, names: seq<seq<byte>>,
                          out: seq<seq<byte>>, offset: nat, remaining: nat)
  {
    PageNames(buf, at, count).Some?
    && PageNames(buf, offset, remaining).Some?
    && out + PageNames(buf, offset, remaining).value == names + PageNames(buf, at, count).value
  }

  lemma ReadNameStep(buf: seq<byte>, at: nat, count: nat, names: seq<seq<byte>>,
                     out: seq<seq<byte>>, offset: nat, remaining: nat)
    requires NamesReadUpTo(buf, at, count, names, out, offset, remaining) && remaining > 0
    ensures CString(buf, offset).Some?
    ensures var name := CString(buf, offset).value;
      NamesReadUpTo(buf, at, count, names, out + [name], offset + |name| + 1, remaining - 1)
  {
    PageNamesUncons(buf, offset, remaining);
    var name := CString(buf, offset).value;
    AppendOne(out, name, PageNames(buf, offset + |name| + 1, remaining - 1).value);
  }

  lemma AppendOne<T>(xs: seq<T>, x: T, ys: seq<T>)
    ensures (xs + [x]) + ys == xs + ([x] + ys)
  {
  }

  /** The first of several names, and the names after it. */
  lemma PageNamesUncons(buf: seq<byte>, at: nat, count: nat)
    requires 0 < count && PageNames(buf, at, count).Some?
    ensures CString(buf, at).Some?
    ensures var name := CString(buf, at).value;
      PageNames(buf, at + |name| + 1, count - 1).Some?
      && PageNames(buf, at, count).value == [name] + PageNames(buf, at + |name| + 1, count - 1).value
  {
  }

  /** A name followed by further names. */
  lemma PageNamesCons(buf: seq<byte>, at: nat, count: nat, name: seq<byte>, rest: seq<seq<byte>>)
    requires count == |rest| + 1
    requires CString(buf, at) == Some(name) && PageNames(buf, at + |name| + 1, count - 1) == Some(rest)
    ensures PageNames(buf, at, count) == Some([name] + rest)
  {
  }

  // ---------------------------------------------------------------------
  // Chars and kerning pairs

  /** ReadCharBlock (lines 61-72): blockSize / sizeof(Char) records, one after the other. */
  method ReadCharBlock(buf: seq<byte>, at: nat, blockSize: u32, chars: seq<CharRecord>)
    returns (out: seq<CharRecord>)
    requires at + CHAR_SIZE * (blockSize / CHAR_SIZE) <= |buf|
    ensures out == chars + DecodeChars(buf, at, blockSize / CHAR_SIZE)
  {
    var charCount := blockSize / CHAR_SIZE;
    out := chars;
    var offset := at;
    var i := 0;
    while i < charCount
      invariant 0 <= i <= charCount && offset == at + CHAR_SIZE * i
      invariant out + DecodeChars(buf, offset, charCount - i) == chars + DecodeChars(buf, at, charCount)
    {
      var ch: CharRecord := buf[offset..offset + CHAR_SIZE];
      var rest := DecodeChars(buf, offset + CHAR_SIZE, charCount - i - 1);
      assert DecodeChars(buf, offset, charCount - i) == [ch] + rest;
      assert (out + [ch]) + rest == out + ([ch] + rest);
      out := out + [ch];
      offset := offset + CHAR_SIZE;
      i := i + 1;
    }
  }

  /** One BMFont kerning pair: two u32 ids and an i16 amount, 10 bytes. */
  function BmfKerningBytes(k: KerningPair): (r: seq<byte>)
    ensures |r| == BMF_KERNING_SIZE
  {
    U32sBytes([k.first, k.second]) + U16Bytes(AmountBits(k.amount))
  }

  /** The loop body of ReadKerningBlock (lines 79-84). */
  function ReadBmfKerningPair(buf: seq<byte>, at: nat): KerningPair
    requires at + BMF_KERNING_SIZE <= |buf|
  {
    KerningPair(ReadU32(buf, at), ReadU32(buf, at + 4), SignedAmount(ReadU16(buf, at + 8)))
  }

  lemma BmfKerningPairRoundTrip(k: KerningPair, pre: seq<byte>, post: seq<byte>)
    ensures |pre| + BMF_KERNING_SIZE <= |pre + BmfKerningBytes(k) + post|
    ensures ReadBmfKerningPair(pre + BmfKerningBytes(k) + post, |pre|) == k
  {
    var s := pre + BmfKerningBytes(k) + post;
    var ids := U32sBytes([k.first, k.second]);
    var amount := U16Bytes(AmountBits(k.amount));
    assert s == pre + ids + (amount + post);
    U32sRoundTrip([k.first, k.second], pre, amount + post);
    ReadU32sIndex(s, |pre|, 2, 0);
    ReadU32sIndex(s, |pre|, 2, 1);
    assert s == (pre + ids) + amount + post;
    U16RoundTrip(AmountBits(k.amount), pre + ids, post);
    AmountRoundTrip(k.amount);
  }

  /** The `count` BMFont kerning pairs stored from `at`. */
  function ReadBmfKerningPairs(buf: seq<byte>, at: nat, count: nat): (r: seq<KerningPair>)
    requires at + BMF_KERNING_SIZE * count <= |buf|
    ensures |r| == count
    decreases count
  {
    if count == 0 then []
    else [ReadBmfKerningPair(buf, at)] + ReadBmfKerningPairs(buf, at + BMF_KERNING_SIZE, count - 1)
  }

  function BmfKerningPairsBytes(ks: seq<KerningPair>): (r: seq<byte>)
    ensures |r| == BMF_KERNING_SIZE * |ks|
  {
    if |ks| == 0 then [] else BmfKerningBytes(ks[0]) + BmfKerningPairsBytes(ks[1..])
  }

  lemma {:induction false} BmfKerningPairsRoundTrip(ks: seq<KerningPair>, pre: seq<byte>, post: seq<byte>)
    ensures |pre| + BMF_KERNING_SIZE * |ks| <= |pre + BmfKerningPairsBytes(ks) + post|
    ensures ReadBmfKerningPairs(pre + BmfKerningPairsBytes(ks) + post, |pre|, |ks|) == ks
  {
    if |ks| > 0 {
      var first := BmfKerningBytes(ks[0]);
      var tail := BmfKerningPairsBytes(ks[1..]);
      assert BmfKerningPairsBytes(ks) == first + tail;
      Regroup(pre, first, tail, post);
      BmfKerningPairRoundTrip(ks[0], pre, tail + post);
      BmfKerningPairsRoundTrip(ks[1..], pre + first, post);
      assert ks == [ks[0]] + ks[1..];
    }
  }

  /** The ways of grouping a sequence in four parts. */
  lemma Regroup<T>(pre: seq<T>, a: seq<T>, b: seq<T>, post: seq<T>)
    ensures pre + (a + b) + post == pre + a + (b + post)
    ensures pre + (a + b) + post == (pre + a) + b + post
  {
  }

  /** The number of records ReadKerningBlock reads: one per started 10 bytes of the block. */
  function KerningCount(blockSize: nat): (r: nat)
    ensures BMF_KERNING_SIZE * r >= blockSize
    ensures r > 0 ==> BMF_KERNING_SIZE * (r - 1) < blockSize
  {
    (blockSize + BMF_KERNING_SIZE - 1) / BMF_KERNING_SIZE
  }

  /** A block that holds whole records yields exactly those records. */
  lemma KerningCountOfRecords(ks: seq<KerningPair>)
    ensures KerningCount(|BmfKerningPairsBytes(ks)|) == |ks|
  {
  }

  /** ReadKerningBlock (lines 74-86): 10-byte records while the offset is below the block size. */
  method ReadKerningBlock(buf: seq<byte>, at: nat, blockSize: u32, pairs: seq<KerningPair>)
    returns (out: seq<KerningPair>)
    requires at + BMF_KERNING_SIZE * KerningCount(blockSize) <= |buf|
    ensures out == pairs + ReadBmfKerningPairs(buf, at, KerningCount(blockSize))
  {
    var count := KerningCount(blockSize);
    out := pairs;
    var offset := 0;
    var i := 0;
    while offset < blockSize
      invariant 0 <= i <= count && offset == BMF_KERNING_SIZE * i
      invariant out + ReadBmfKerningPairs(buf, at + offset, count - i)
        == pairs + ReadBmfKerningPairs(buf, at, count)
      decreases blockSize - offset
    {
      var pair := ReadBmfKerningPair(buf, at + offset);
      var rest := ReadBmfKerningPairs(buf, at + offset + BMF_KERNING_SIZE, count - i - 1);
      assert ReadBmfKerningPairs(buf, at + offset, count - i) == [pair] + rest;
      assert (out + [pair]) + rest == out + ([pair] + rest);
      out := out + [pair];
      offset := offset + BMF_KERNING_SIZE;
      i := i + 1;
    }
    assert i == count;
  }

  // ---------------------------------------------------------------------
  // The block loop

  /** What the block loop has gathered so far. */
  datatype ParseState = ParseState(
    common: CommonBlock, names: seq<seq<byte>>, chars: seq<CharRecord>, kerningPairs: seq<KerningPair>)

  /** The state before the first block: a zero common block and empty lists. */
  function InitialState(): (r: ParseState)
    ensures r.names == [] && r.chars == [] && r.kerningPairs == [] && r.common.pages == 0
  {
    ParseState(CommonBlock(0, 0, 0, 0, 0, 0, 0, 0, 0, 0, 0, 0), [], [], [])
  }

  /** The effect of one block whose contents start at `at`; None when its reads leave the buffer. */
  function ApplyBlock(buf: seq<byte>, at: nat, blockType: byte, blockSize: u32, st: ParseState): Option<ParseState>
  {
    if blockType == COMMON then
      if at + BMF_COMMON_SIZE <= |buf| then Some(st.(common := ReadCommonBlock(buf, at))) else None
    else if blockType == PAGES then
      match PageNames(buf, at, st.common.pages)
      case None => None
      case Some(ns) => Some(st.(names := st.names + ns))
    else if blockType == CHARS then
      if at + CHAR_SIZE * (blockSize / CHAR_SIZE) <= |buf|
      then Some(st.(chars := st.chars + DecodeChars(buf, at, blockSize / CHAR_SIZE)))
      else None
    else if blockType == KERNING_PAIRS then
      if at + BMF_KERNING_SIZE * KerningCount(blockSize) <= |buf|
      then Some(st.(kerningPairs := st.kerningPairs + ReadBmfKerningPairs(buf, at, KerningCount(blockSize))))
      else None
    else Some(st)
  }

  /**
   * The block loop (lines 137-160) from `offset`: a type byte and a u32 size,
   * the block's effect, then on past the block. None when a read leaves the
   * buffer.
   */
  function ParseBlocks(buf: seq<byte>, offset: nat, st: ParseState): (r: Option<ParseState>)
    decreases |buf| - offset
  {
    if offset >= |buf| then Some(st)
    else if offset + 5 > |buf| then None
    else
      var blockSize := ReadU32(buf, offset + 1);
      match ApplyBlock(buf, offset + 5, buf[offset], blockSize, st)
      case None => None
      case Some(next) => ParseBlocks(buf, offset + 5 + blockSize, next)
  }

  /** Blocks of a type the compiler does not handle, such as the info block, change nothing. */
  lemma UnknownBlockSkipped(buf: seq<byte>, at: nat, blockType: byte, blockSize: u32, st: ParseState)
    requires blockType !in {COMMON, PAGES, CHARS, KERNING_PAIRS}
    ensures ApplyBlock(buf, at, blockType, blockSize, st) == Some(st)
  {
  }

  /** The gathered lists only grow: each block appends to them. */
  lemma {:induction false} ParseBlocksExtends(buf: seq<byte>, offset: nat, st: ParseState)
    requires ParseBlocks(buf, offset, st).Some?
    ensures var r := ParseBlocks(buf, offset, st).value;
      |st.names| <= |r.names| && r.names[..|st.names|] == st.names
      && |st.chars| <= |r.chars| && r.chars[..|st.chars|] == st.chars
      && |st.kerningPairs| <= |r.kerningPairs| && r.kerningPairs[..|st.kerningPairs|] == st.kerningPairs
    decreases |buf| - offset
  {
    if offset < |buf| {
      var blockSize := ReadU32(buf, offset + 1);
      var next := ApplyBlock(buf, offset + 5, buf[offset], blockSize, st).value;
      ApplyBlockExtends(buf, offset + 5, buf[offset], blockSize, st);
      ParseBlocksExtends(buf, offset + 5 + blockSize, next);
      var r := ParseBlocks(buf, offset, st).value;
      PrefixOfPrefix(st.names, next.names, r.names);
      PrefixOfPrefix(st.chars, next.chars, r.chars);
      PrefixOfPrefix(st.kerningPairs, next.kerningPairs, r.kerningPairs);
    }
  }

  lemma ApplyBlockExtends(buf: seq<byte>, at: nat, blockType: byte, blockSize: u32, st: ParseState)
    requires ApplyBlock(buf, at, blockType, blockSize, st).Some?
    ensures var r := ApplyBlock(buf, at, blockType, blockSize, st).value;
      |st.names| <= |r.names| && r.names[..|st.names|] == st.names
      && |st.chars| <= |r.chars| && r.chars[..|st.chars|] == st.chars
      && |st.kerningPairs| <= |r.kerningPairs| && r.kerningPairs[..|st.kerningPairs|] == st.kerningPairs
  {
  }

  lemma PrefixOfPrefix<T>(a: seq<T>, b: seq<T>, c: seq<T>)
    requires |a| <= |b| && b[..|a|] == a && |b| <= |c| && c[..|b|] == b
    ensures |a| <= |c| && c[..|a|] == a
  {
    assert c[..|a|] == c[..|b|][..|a|];
  }

  /**
   * The block loop as written: the offset is a u32, so a block size close
   * to 2^32 wraps it back.
   */
  function NextOffsetAsWritten(offset: u32, blockSize: u32): u32
  {
    (offset + 5 + blockSize) % TWO_32
  }

  /** The corrected loop moves past the block, never back. */
  function NextOffset(offset: nat, blockSize: u32): (r: nat)
    ensures r > offset
  {
    offset + 5 + blockSize
  }

  /**
   * The file "BMF" 3, then an info block of size 0xFFFFFFFB: as written the
   * offset returns to 4 and the loop never ends; corrected, it moves past
   * the end of the file and parsing stops.
   */
  lemma BlockOffsetCounterexample()
    ensures var buf: seq<byte> := [66, 77, 70, 3, 1, 0xFB, 0xFF, 0xFF, 0xFF];
      ReadU32(buf, 5) == 0xFFFF_FFFB
      && NextOffsetAsWritten(4, ReadU32(buf, 5)) == 4
      && NextOffset(4, ReadU32(buf, 5)) >= |buf|
      && ParseBlocks(buf, 4, InitialState()) == Some(InitialState())
  {
    var buf: seq<byte> := [66, 77, 70, 3, 1, 0xFB, 0xFF, 0xFF, 0xFF];
    assert ReadU32(buf, 5) == 0xFFFF_FFFB;
  }

  /** The block loop of CompileFont (lines 137-160). */
  method ReadBlocks(buf: seq<byte>) returns (st: ParseState)
    requires ParseBlocks(buf, 4, InitialState()).Some?
    ensures st == ParseBlocks(buf, 4, InitialState()).value
  {
    st := InitialState();
    var offset: nat := 4;
    while offset < |buf|
      invariant ParseBlocks(buf, offset, st) == ParseBlocks(buf, 4, InitialState())
      decreases |buf| - offset
    {
      ParseBlocksStep(buf, offset, st);
      var blockType, sizeAt := ReadDataU8(buf, offset);
      var blockSize, at := ReadDataU32(buf, sizeAt);
      st := ReadBlock(buf, at, blockType, blockSize, st);
      offset := NextOffset(offset, blockSize);
    }
  }

  /** The body of the block loop (lines 143-158): the reader for the block's type, if any. */
  method ReadBlock(buf: seq<byte>, at: nat, blockType: byte, blockSize: u32, st: ParseState) returns (next: ParseState)
    requires ApplyBlock(buf, at, blockType, blockSize, st).Some?
    ensures next == ApplyBlock(buf, at, blockType, blockSize, st).value
  {
    next := st;
    if blockType == COMMON {
      next := st.(common := ReadCommonBlock(buf, at));
    } else if blockType == PAGES {
      var names := ReadPagesBlock(buf, at, st.common.pages, st.names);
      next := st.(names := names);
    } else if blockType == CHARS {
      var chars := ReadCharBlock(buf, at, blockSize, st.chars);
      next := st.(chars := chars);
    } else if blockType == KERNING_PAIRS {
      var pairs := ReadKerningBlock(buf, at, blockSize, st.kerningPairs);
      next := st.(kerningPairs := pairs);
    }
  }

  /** One block of a parse that succeeds: it fits, its effect succeeds, and parsing goes on past it. */
  lemma ParseBlocksStep(buf: seq<byte>, offset: nat, st: ParseState)
    requires offset < |buf| && ParseBlocks(buf, offset, st).Some?
    ensures offset + 5 <= |buf|
    ensures var blockSize := ReadU32(buf, offset + 1);
      var next := ApplyBlock(buf, offset + 5, buf[offset], blockSize, st);
      next.Some? && ParseBlocks(buf, offset, st) == ParseBlocks(buf, NextOffset(offset, blockSize), next.value)
  {
  }

  // ---------------------------------------------------------------------
  // Formats

  /** The cuttlefish image formats the compiler distinguishes. */
  datatype ImageFormat = Gray8 | Rgba8 | OtherImageFormat(id: nat)

  /** The engine's texture formats the compiler produces. */
  datatype InternalFormat = R8 | RGBA8 | Invalid

  /** The cuttlefish texture formats the compiler converts to. */
  datatype CuttlefishFormat = CfR8 | CfR8G8B8A8 | CfUnknown

  /** GetRenderEngineFormat (lines 88-99). */
  function GetRenderEngineFormat(f: ImageFormat): (r: InternalFormat)
    ensures r == Invalid <==> f.OtherImageFormat?
    ensures r == R8 <==> f == Gray8
    ensures r == RGBA8 <==> f == Rgba8
  {
    match f
    case Gray8 => R8
    case Rgba8 => RGBA8
    case OtherImageFormat(_) => Invalid
  }

  /** GetCuttlefishTextureFormat (lines 101-112). */
  function GetCuttlefishTextureFormat(f: ImageFormat): (r: CuttlefishFormat)
    ensures r == CfUnknown <==> f.OtherImageFormat?
  {
    match f
    case Gray8 => CfR8
    case Rgba8 => CfR8G8B8A8
    case OtherImageFormat(_) => CfUnknown
  }

  /** The two mappings agree: the same channel layout, and unknown exactly when the engine format is invalid. */
  lemma FormatsAgree(f: ImageFormat)
    ensures GetRenderEngineFormat(f) == R8 <==> GetCuttlefishTextureFormat(f) == CfR8
    ensures GetRenderEngineFormat(f) == RGBA8 <==> GetCuttlefishTextureFormat(f) == CfR8G8B8A8
    ensures GetRenderEngineFormat(f) == Invalid <==> GetCuttlefishTextureFormat(f) == CfUnknown
  {
  }

  /**
   * The value a valid engine format has in the texture header: the OpenGL
   * values GL_R8 and GL_RGBA8.
   */
  function FormatCode(f: InternalFormat): u32
    requires f != Invalid
  {
    if f == R8 then 0x8229 else 0x8058
  }

  // ---------------------------------------------------------------------
  // Compiling

  /** A loaded page image; its pixels are opaque to the compiler. */
  datatype PageImage = PageImage(format: ImageFormat, pixels: seq<byte>)

  /** The page loading loop's result: every image, or the first name that would not load. */
  datatype LoadResult = AllLoaded(images: seq<PageImage>) | LoadFailed(name: seq<byte>)

  /** The page loading loop (lines 165-178). */
  function LoadPages(names: seq<seq<byte>>, load: seq<byte> -> Option<PageImage>): (r: LoadResult)
    ensures r.AllLoaded? ==> |r.images| == |names|
    ensures r.LoadFailed? ==> r.name in names && load(r.name).None?
  {
    if |names| == 0 then AllLoaded([])
    else if load(names[0]).None? then LoadFailed(names[0])
    else
      match LoadPages(names[1..], load)
      case LoadFailed(n) => LoadFailed(n)
      case AllLoaded(rest) => AllLoaded([load(names[0]).value] + rest)
  }

  /** All pages load exactly when each name loads, and then image i is name i's image. */
  lemma {:induction false} LoadPagesAll(names: seq<seq<byte>>, load: seq<byte> -> Option<PageImage>)
    ensures LoadPages(names, load).AllLoaded? <==> forall i :: 0 <= i < |names| ==> load(names[i]).Some?
    ensures LoadPages(names, load).AllLoaded? ==>
      forall i :: 0 <= i < |names| ==> LoadPages(names, load).images[i] == load(names[i]).value
  {
    if |names| > 0 {
      LoadPagesAll(names[1..], load);
      assert forall i :: 1 <= i < |names| ==> names[i] == names[1..][i - 1];
    }
  }

  /** The header written in front of the pages (lines 180-186). */
  function FontHeader(c: CommonBlock, format: InternalFormat): (h: TextureHeader)
    requires format != Invalid
    ensures h.depth == c.pages && h.mipCount == 1 && h.isLinear
    ensures h.width == c.scaleW && h.height == c.scaleH
  {
    TextureHeader(c.scaleW, c.scaleH, c.pages, 1, FormatCode(format), true)
  }

  /** Converts an image to a texture of the given size and format; None when conversion fails. */
  type Converter = (PageImage, CuttlefishFormat, u32, u32) -> Option<seq<byte>>

  /** `imageSize` is a u32: the bytes written are the first dataSize mod 2^32 bytes. */
  function Truncated(d: seq<byte>): (r: seq<byte>)
    ensures |r| < TWO_32 && |r| <= |d| && r == d[..|r|]
    ensures |d| < TWO_32 ==> r == d
  {
    d[..|d| % TWO_32]
  }

  /** The converted pages, up to the first conversion that fails. */
  datatype Converted = Converted(pages: seq<seq<byte>>, complete: bool)

  /** The page writing loop (lines 204-219). */
  function ConvertPages(images: seq<PageImage>, h: TextureHeader, convert: Converter): (r: Converted)
    ensures r.complete ==> |r.pages| == |images|
    ensures !r.complete ==>
      |r.pages| < |images|
      && convert(images[|r.pages|], GetCuttlefishTextureFormat(images[|r.pages|].format), h.width, h.height).None?
    ensures PagesFit(r.pages)
    ensures forall i :: 0 <= i < |r.pages| ==>
      var d := convert(images[i], GetCuttlefishTextureFormat(images[i].format), h.width, h.height);
      d.Some? && r.pages[i] == Truncated(d.value)
  {
    if |images| == 0 then Converted([], true)
    else
      var d := convert(images[0], GetCuttlefishTextureFormat(images[0].format), h.width, h.height);
      if d.None? then Converted([], false)
      else
        var rest := ConvertPages(images[1..], h, convert);
        Converted([Truncated(d.value)] + rest.pages, rest.complete)
  }

  /** Appending an image extends the converted pages by its page, or stops them there. */
  lemma {:induction false} ConvertSnoc(xs: seq<PageImage>, x: PageImage, h: TextureHeader, convert: Converter)
    requires ConvertPages(xs, h, convert).complete
    ensures var d := convert(x, GetCuttlefishTextureFormat(x.format), h.width, h.height);
      var before := ConvertPages(xs, h, convert).pages;
      ConvertPages(xs + [x], h, convert)
        == if d.Some? then Converted(before + [Truncated(d.value)], true) else Converted(before, false)
  {
    if |xs| > 0 {
      assert (xs + [x])[1..] == xs[1..] + [x];
      ConvertSnoc(xs[1..], x, h, convert);
    }
  }

  /** ConvertSnoc for the prefixes of one sequence of images. */
  lemma ConvertPrefixStep(all: seq<PageImage>, i: nat, h: TextureHeader, convert: Converter)
    requires i < |all| && ConvertPages(all[..i], h, convert).complete
    ensures var d := convert(all[i], GetCuttlefishTextureFormat(all[i].format), h.width, h.height);
      var before := ConvertPages(all[..i], h, convert).pages;
      ConvertPages(all[..i + 1], h, convert)
        == if d.Some? then Converted(before + [Truncated(d.value)], true) else Converted(before, false)
  {
    assert all[..i] + [all[i]] == all[..i + 1];
    ConvertSnoc(all[..i], all[i], h, convert);
  }

  /** A prefix whose conversion fails decides the conversion of the whole sequence. */
  lemma ConvertPrefixFails(all: seq<PageImage>, i: nat, h: TextureHeader, convert: Converter)
    requires i <= |all| && !ConvertPages(all[..i], h, convert).complete
    ensures ConvertPages(all, h, convert) == ConvertPages(all[..i], h, convert)
  {
    assert all[..i] + all[i..] == all;
    ConvertStopsAtFailure(all[..i], all[i..], h, convert);
  }

  /** Once a conversion fails, later images change nothing. */
  lemma {:induction false} ConvertStopsAtFailure(xs: seq<PageImage>, ys: seq<PageImage>, h: TextureHeader, convert: Converter)
    requires !ConvertPages(xs, h, convert).complete
    ensures ConvertPages(xs + ys, h, convert) == ConvertPages(xs, h, convert)
  {
    assert (xs + ys)[0] == xs[0];
    var d := convert(xs[0], GetCuttlefishTextureFormat(xs[0].format), h.width, h.height);
    if d.Some? {
      assert (xs + ys)[1..] == xs[1..] + ys;
      ConvertStopsAtFailure(xs[1..], ys, h, convert);
    }
  }

  lemma {:induction false} EncodePagesSnoc(ps: seq<seq<byte>>, p: seq<byte>)
    requires PagesFit(ps) && |p| < TWO_32
    ensures PagesFit(ps + [p])
    ensures EncodePages(ps + [p]) == EncodePages(ps) + EncodePage(p)
  {
    if |ps| > 0 {
      assert (ps + [p])[1..] == ps[1..] + [p];
      EncodePagesSnoc(ps[1..], p);
    }
  }

  /** The page loading loop of CompileFont (lines 165-178). */
  method LoadPageImages(names: seq<seq<byte>>, load: seq<byte> -> Option<PageImage>) returns (r: LoadResult)
    ensures r == LoadPages(names, load)
  {
    var images: seq<PageImage> := [];
    var i := 0;
    while i < |names|
      invariant 0 <= i <= |names|
      invariant LoadPages(names[..i], load) == AllLoaded(images)
    {
      var image := load(names[i]);
      LoadPrefixStep(names, i, load);
      if image.None? {
        LoadPrefixFails(names, i + 1, load);
        return LoadFailed(names[i]);
      }
      images := images + [image.value];
      i := i + 1;
    }
    assert names[..i] == names;
    return AllLoaded(images);
  }

  lemma {:induction false} LoadSnoc(xs: seq<seq<byte>>, x: seq<byte>, load: seq<byte> -> Option<PageImage>)
    requires LoadPages(xs, load).AllLoaded?
    ensures LoadPages(xs + [x], load)
      == if load(x).Some? then AllLoaded(LoadPages(xs, load).images + [load(x).value]) else LoadFailed(x)
  {
    if |xs| > 0 {
      assert (xs + [x])[1..] == xs[1..] + [x];
      LoadSnoc(xs[1..], x, load);
    }
  }

  lemma LoadPrefixStep(names: seq<seq<byte>>, i: nat, load: seq<byte> -> Option<PageImage>)
    requires i < |names| && LoadPages(names[..i], load).AllLoaded?
    ensures LoadPages(names[..i + 1], load)
      == if load(names[i]).Some? then AllLoaded(LoadPages(names[..i], load).images + [load(names[i]).value])
         else LoadFailed(names[i])
  {
    assert names[..i] + [names[i]] == names[..i + 1];
    LoadSnoc(names[..i], names[i], load);
  }

  lemma LoadPrefixFails(names: seq<seq<byte>>, i: nat, load: seq<byte> -> Option<PageImage>)
    requires i <= |names| && LoadPages(names[..i], load).LoadFailed?
    ensures LoadPages(names, load) == LoadPages(names[..i], load)
  {
    assert names[..i] + names[i..] == names;
    LoadStopsAtFailure(names[..i], names[i..], load);
  }

  lemma {:induction false} LoadStopsAtFailure(xs: seq<seq<byte>>, ys: seq<seq<byte>>, load: seq<byte> -> Option<PageImage>)
    requires LoadPages(xs, load).LoadFailed?
    ensures LoadPages(xs + ys, load) == LoadPages(xs, load)
  {
    assert (xs + ys)[0] == xs[0];
    if load(xs[0]).Some? {
      assert (xs + ys)[1..] == xs[1..] + ys;
      LoadStopsAtFailure(xs[1..], ys, load);
    }
  }

  /** What a run of CompileFont ends with; the written bytes where it wrote any. */
  datatype CompileOutcome =
    | NoInputFile
    | BadIdentifier
    | PageLoadFailed(name: seq<byte>)
    | NoPages
    | InvalidFormat
    | ConvertFailed(written: seq<byte>)
    | Compiled(written: seq<byte>)

  /** The common block as written: the parsed block with the counts of what was parsed (lines 162-163). */
  function CountedCommon(st: ParseState): (c: CommonBlock)
    ensures c.charsCount == |st.chars| % TWO_32 && c.kerningPairsCount == |st.kerningPairs| % TWO_32
    ensures c.(charsCount := 0, kerningPairsCount := 0) == st.common.(charsCount := 0, kerningPairsCount := 0)
  {
    st.common.(charsCount := |st.chars| % TWO_32, kerningPairsCount := |st.kerningPairs| % TWO_32)
  }

  /** The parts of the compiled font (lines 198-218). */
  function CompiledFont(st: ParseState, h: TextureHeader, pages: seq<seq<byte>>): FontContents
  {
    FontContents(CountedCommon(st), st.chars, st.kerningPairs, h, pages)
  }

  /** The bytes before the pages: common block, chars, kerning pairs if any, texture header. */
  function FontFront(f: FontContents): seq<byte>
  {
    EncodeCommon(f.common) + EncodeChars(f.chars) + KerningBytes(f.kerningPairs) + EncodeHeader(f.header)
  }

  lemma FontIsFrontThenPages(f: FontContents)
    requires PagesFit(f.pages)
    ensures EncodeFont(f) == FontFront(f) + EncodePages(f.pages)
  {
  }

  /** What a compiler run needs of the input to stay inside the buffer it reads. */
  predicate Readable(file: Option<seq<byte>>)
  {
    file.Some? ==>
      4 <= |file.value|
      && (IsBmf3(file.value) ==> ParseBlocks(file.value, 4, InitialState()).Some?)
  }

  /** The bytes written for the pages, or where the writing stopped. */
  function WrittenFont(st: ParseState, h: TextureHeader, conv: Converted): CompileOutcome
    requires PagesFit(conv.pages)
  {
    var font := CompiledFont(st, h, conv.pages);
    if conv.complete then Compiled(EncodeFont(font))
    else ConvertFailed(FontFront(font) + EncodePages(conv.pages))
  }

  /** The outcome of CompileFont on the given input (lines 114-224). */
  function CompileResult(file: Option<seq<byte>>, load: seq<byte> -> Option<PageImage>, convert: Converter): CompileOutcome
    requires Readable(file)
  {
    if file.None? then NoInputFile
    else if !IsBmf3(file.value) then BadIdentifier
    else
      var st := ParseBlocks(file.value, 4, InitialState()).value;
      match LoadPages(st.names, load)
      case LoadFailed(name) => PageLoadFailed(name)
      case AllLoaded(images) =>
        if |images| == 0 then NoPages
        else
          var format := GetRenderEngineFormat(images[0].format);
          if format == Invalid then InvalidFormat
          else
            var h := FontHeader(st.common, format);
            WrittenFont(st, h, ConvertPages(images, h, convert))
  }

  /**
   * CompileFont (lines 114-224). `file` is the input's bytes (None when it
   * cannot be opened), `load` reads a page image by name, `convert` turns an
   * image into texture data of the given format and size.
   */
  method CompileFont(file: Option<seq<byte>>, load: seq<byte> -> Option<PageImage>, convert: Converter)
    returns (outcome: CompileOutcome)
    requires Readable(file)
    ensures outcome == CompileResult(file, load, convert)
  {
    if file.None? {
      return NoInputFile;
    }
    var buffer := file.value;
    if !IsBmf3(buffer) {
      return BadIdentifier;
    }
    var st := ReadBlocks(buffer);

    var images := LoadPageImages(st.names, load);
    if images.LoadFailed? {
      return PageLoadFailed(images.name);
    }
    if |images.images| == 0 {
      return NoPages;
    }

    var format := GetRenderEngineFormat(images.images[0].format);
    if format == Invalid {
      return InvalidFormat;
    }
    var header := FontHeader(st.common, format);
    outcome := WritePages(st, header, images.images, convert);
  }

  /** The writes of lines 198-219: the front of the font, then each converted page. */
  method WritePages(st: ParseState, header: TextureHeader, all: seq<PageImage>, convert: Converter)
    returns (outcome: CompileOutcome)
    ensures outcome == WrittenFont(st, header, ConvertPages(all, header, convert))
  {
    var common := CountedCommon(st);
    var out := EncodeCommon(common) + EncodeChars(st.chars) + KerningBytes(st.kerningPairs) + EncodeHeader(header);
    ghost var front := out;
    WriteStart(front, all, header, convert);
    var i := 0;
    while i < |all|
      invariant WrittenUpTo(front, all, i, header, convert, out)
    {
      var image := all[i];
      var data := convert(image, GetCuttlefishTextureFormat(image.format), header.width, header.height);
      if data.None? {
        WriteFails(st, front, all, i, header, convert, out);
        return ConvertFailed(out);
      }
      var imageSize := |data.value| % TWO_32;
      WriteStep(front, all, i, header, convert, out, data.value);
      TruncatedPage(data.value);
      out := out + (U32Bytes(imageSize) + data.value[..imageSize]);
      i := i + 1;
    }
    WriteDone(st, front, all, header, convert, out);
    return Compiled(out);
  }

  /** `out` is `front` followed by the first i images' pages, all converted. */
  predicate WrittenUpTo(front: seq<byte>, all: seq<PageImage>, i: nat, h: TextureHeader, convert: Converter, out: seq<byte>)
  {
    i <= |all|
    && ConvertPages(all[..i], h, convert).complete
    && out == front + EncodePages(ConvertPages(all[..i], h, convert).pages)
  }

  lemma WriteStart(front: seq<byte>, all: seq<PageImage>, h: TextureHeader, convert: Converter)
    ensures WrittenUpTo(front, all, 0, h, convert, front)
  {
    assert all[..0] == [];
    assert front + [] == front;
  }

  lemma WriteStep(front: seq<byte>, all: seq<PageImage>, i: nat, h: TextureHeader, convert: Converter,
                  out: seq<byte>, d: seq<byte>)
    requires WrittenUpTo(front, all, i, h, convert, out) && i < |all|
    requires convert(all[i], GetCuttlefishTextureFormat(all[i].format), h.width, h.height) == Some(d)
    ensures WrittenUpTo(front, all, i + 1, h, convert, out + EncodePage(Truncated(d)))
  {
    var before := ConvertPages(all[..i], h, convert).pages;
    ConvertPrefixStep(all, i, h, convert);
    EncodePagesSnoc(before, Truncated(d));
    assert out + EncodePage(Truncated(d)) == front + EncodePages(before + [Truncated(d)]);
  }

  /** The bytes written for one page: its size mod 2^32 as a u32, then that many of its bytes. */
  lemma TruncatedPage(d: seq<byte>)
    ensures U32Bytes(|d| % TWO_32) + d[..|d| % TWO_32] == EncodePage(Truncated(d))
  {
  }

  lemma WriteFails(st: ParseState, front: seq<byte>, all: seq<PageImage>, i: nat, h: TextureHeader, convert: Converter, out: seq<byte>)
    requires front == FontFront(CompiledFont(st, h, []))
    requires WrittenUpTo(front, all, i, h, convert, out) && i < |all|
    requires convert(all[i], GetCuttlefishTextureFormat(all[i].format), h.width, h.height).None?
    ensures WrittenFont(st, h, ConvertPages(all, h, convert)) == ConvertFailed(out)
  {
    ConvertPrefixStep(all, i, h, convert);
    ConvertPrefixFails(all, i + 1, h, convert);
  }

  lemma WriteDone(st: ParseState, front: seq<byte>, all: seq<PageImage>, h: TextureHeader, convert: Converter, out: seq<byte>)
    requires front == FontFront(CompiledFont(st, h, []))
    requires WrittenUpTo(front, all, |all|, h, convert, out)
    ensures WrittenFont(st, h, ConvertPages(all, h, convert)) == Compiled(out)
  {
    assert all[..|all|] == all;
    FontIsFrontThenPages(CompiledFont(st, h, ConvertPages(all, h, convert).pages));
  }

  /**
   * Line 185 takes the format of the first page image even when the font
   * names no page: a file that is only the identifier "BMF" and version 3
   * parses to no page names, so every page load succeeds with no image at
   * all and there is no first image to read. The model returns NoPages there.
   */
  lemma NoPagesCounterexample(load: seq<byte> -> Option<PageImage>)
    ensures var file := ['B' as byte, 'M' as byte, 'F' as byte, 3];
      IsBmf3(file) && ParseBlocks(file, 4, InitialState()) == Some(InitialState())
      && LoadPages(InitialState().names, load) == AllLoaded([])
  {
  }

  /** Each early return of CompileFont happens exactly on its condition. */
  lemma CompileFailures(file: Option<seq<byte>>, load: seq<byte> -> Option<PageImage>, convert: Converter)
    requires Readable(file)
    ensures CompileResult(file, load, convert) == NoInputFile <==> file.None?
    ensures file.Some? ==> (CompileResult(file, load, convert) == BadIdentifier <==> !IsBmf3(file.value))
    ensures file.Some? && IsBmf3(file.value) ==>
      var names := ParseBlocks(file.value, 4, InitialState()).value.names;
      (CompileResult(file, load, convert).PageLoadFailed? <==> exists i :: 0 <= i < |names| && load(names[i]).None?)
      && (CompileResult(file, load, convert).PageLoadFailed? ==>
        CompileResult(file, load, convert).name in names && load(CompileResult(file, load, convert).name).None?)
      && (CompileResult(file, load, convert) == NoPages <==> |names| == 0)
      && (CompileResult(file, load, convert) == InvalidFormat <==>
        |names| >= 1 && (forall i :: 0 <= i < |names| ==> load(names[i]).Some?)
        && load(names[0]).value.format.OtherImageFormat?)
  {
    if file.Some? && IsBmf3(file.value) {
      var names := ParseBlocks(file.value, 4, InitialState()).value.names;
      LoadPagesAll(names, load);
      match LoadPages(names, load)
      case LoadFailed(n) =>
        assert CompileResult(file, load, convert) == PageLoadFailed(n);
        var k :| 0 <= k < |names| && names[k] == n;
        assert load(names[k]).None?;
      case AllLoaded(images) =>
        assert !CompileResult(file, load, convert).PageLoadFailed?;
    }
  }

  /** A font written in full reads back as the parts that were written. */
  lemma WrittenFontReadsBack(st: ParseState, h: TextureHeader, conv: Converted)
    requires conv.complete && PagesFit(conv.pages) && |conv.pages| == st.common.pages
    requires |st.chars| < TWO_32 && |st.kerningPairs| < TWO_32
    ensures WrittenFont(st, h, conv).Compiled?
    ensures FontFits(WrittenFont(st, h, conv).written)
    ensures DecodeFont(WrittenFont(st, h, conv).written) == CompiledFont(st, h, conv.pages)
  {
    FontRoundTrip(CompiledFont(st, h, conv.pages));
  }

  /**
   * When the common block announces as many pages as the pages block names
   * and the counts fit their u32 fields, the font reader gets back from a
   * compiled font the parsed chars and kerning pairs, one page per name, and
   * the header built from the common block.
   */
  lemma CompiledReadsBack(file: Option<seq<byte>>, load: seq<byte> -> Option<PageImage>, convert: Converter)
    requires Readable(file) && CompileResult(file, load, convert).Compiled?
    requires var st := ParseBlocks(file.value, 4, InitialState()).value;
      |st.names| == st.common.pages && |st.chars| < TWO_32 && |st.kerningPairs| < TWO_32
    ensures var st := ParseBlocks(file.value, 4, InitialState()).value;
      var out := CompileResult(file, load, convert).written;
      FontFits(out)
      && DecodeFont(out).chars == st.chars
      && DecodeFont(out).kerningPairs == st.kerningPairs
      && DecodeFont(out).common.(charsCount := 0, kerningPairsCount := 0)
        == st.common.(charsCount := 0, kerningPairsCount := 0)
      && |DecodeFont(out).pages| == |st.names|
      && DecodeFont(out).header.depth == st.common.pages
      && DecodeFont(out).header.width == st.common.scaleW
      && DecodeFont(out).header.height == st.common.scaleH
      && DecodeFont(out).header.mipCount == 1
      && DecodeFont(out).header.isLinear
  {
    var st := ParseBlocks(file.value, 4, InitialState()).value;
    var images := LoadPages(st.names, load).images;
    var h := FontHeader(st.common, GetRenderEngineFormat(images[0].format));
    WrittenFontReadsBack(st, h, ConvertPages(images, h, convert));
  }
}
