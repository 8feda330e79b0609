# render-engine core, modelled in Dafny

This project models the core of the render engine: the offline tools that compile fonts and pick shader variants, the binary readers for compiled fonts and textures, and the engine's GPU buffers and render queue. It also covers the CPU and GPU profiler, the render-target bookkeeping of the OpenGL backend, the in-game UI text field and mask, logging, window ids, lights, property blocks and the Android launcher. Each core source file becomes one module:

- Code that computes a value is written as datatypes and functions.
- Code that changes state step by step is written as classes and methods whose loops carry invariants.

Each method's contract ties its result or its new state to a specification function, and lemmas prove what the engine relies on about those functions: round trips, permutations, bounds, invariants and error cases.

The modules:

- `Wrappers`, `Bytes`: shared helpers. `Option`/`Result`, plus fixed-width unsigned integers and their little-endian encodings.
- `TextureHeaderLayout`, `FontData`: the byte layout of a compiled font. This is a common block, character records, kerning pairs, a texture header and size-prefixed pages.
- `FontCompiler`: reads a binary BMFont file (AngelCode, version 3) and writes the compiled font.
- `FontReader`: the engine's reader for compiled fonts.
- `TextureBinaryReading`: the reader for compiled textures and their mip table.
- `StringEncoding`: UTF-16 to UTF-32 conversion and back, following sections 2.1 and 2.2 of RFC 2781.
- `Arguments`: the command-line flag table.
- `Defines`: shader define lists and their FNV-1a 64 hash.
- `GraphicsBackend`: the shader compiler's backend names.
- `GraphicsBuffers`, `RingBuffers`, `UniformBlocks`: GPU buffers. Backend buffers are modelled by their bytes.
- `DrawCalls`, `RenderQueues`: draw-call filters and the render queue (setup, filter, instancing batch, sort).
- `Sequences`: swap-remove, sort by rank, and first-match search, which several engine files use.
- `UITextFields`, `UIMasks`: the UI text field and mask.
- `WindowsIdPools`: editor window ids.
- `Lights`: lights and their registry.
- `DebugLog`: logging and log listeners.
- `PropertyBlocks`, `UniformTypes`: property blocks and uniform types.
- `TextureCompressorFormats`: the texture compressor's format and type tables.
- `Profilers`: the profiler's per-context frame histories and GPU markers.
- `OpenGLRenderTargets`: the OpenGL backend's render-target table, render passes and debug groups.
- `AndroidLaunchers`: the Android activity and GL renderer, modelled by the calls they make into the engine.

Where a source file is a newer revision than its header, the model follows the source file:

- `core/editor/profiler/profiler.h` has no GPU copy context and a default frame of -1. `profiler.cpp` uses three contexts, and the model follows `profiler.cpp`.
- `core/graphics_buffer/ring_buffer.h` declares a ring of whole graphics buffers with a bind target and usage hint. `ring_buffer.cpp` builds one buffer of `elementSize * elementsCount` bytes and moves an element offset around it; the model follows `ring_buffer.cpp`.
- `core/graphics_buffer/graphics_buffer.h` declares one backend buffer with a bind target and usage hint. `graphics_buffer.cpp` keeps a name, a double-buffering flag and one backend buffer per frame in flight; the model follows `graphics_buffer.cpp`. The two-argument `GraphicsBuffer(size, name)` that `ring_buffer.cpp:20` calls relies on a default for the double-buffering flag that neither file shows; the model takes it to be single-buffered (`false`).

## Model

| member | source | states |
|---|---|---|
| TextureHeaderLayout.HeaderRoundTrip | core/font/font_binary_reader.cpp:27-28 | a texture header written anywhere in a byte stream is read back unchanged |
| FontData.CommonRoundTrip | core/font/font_binary_reader.cpp:13-14 | a common block written anywhere is read back field for field |
| FontData.KerningPairRoundTrip | core/font/font_binary_reader.cpp:22-24 | a kerning pair (two u32 ids, a signed 16-bit amount) is read back unchanged, including negative amounts |
| FontData.AmountRoundTrip | core/font/font_binary_reader.cpp:22-24 | the two's-complement bits of an i16 amount decode to the same amount |
| FontData.CharsRoundTrip | core/font/font_binary_reader.cpp:16-18 | `count` character records written one after another are read back in order |
| FontData.KerningPairsRoundTrip | core/font/font_binary_reader.cpp:20-25 | kerning pairs written one after another are read back in order |
| FontData.DecodePages | core/font/font_binary_reader.cpp:30-39 | a successful page read yields exactly the counted number of pages |
| FontData.PagesRoundTrip | core/font/font_binary_reader.cpp:30-39 | pages written as a u32 size followed by their bytes are read back unchanged |
| FontData.OffsetsIncrease | core/font/font_binary_reader.cpp:11-28 | each part of the file starts at or after the end of the part before it, and the kerning block is non-empty exactly when pairs are counted |
| FontData.DecodeFont | core/font/font_binary_reader.cpp:11-39 | the reader finds as many chars and pages as the common block counts, and no kerning pairs when none are counted |
| FontData.FontRoundTrip | core/font/font_binary_reader.cpp:11-39 | a consistent font written in the compiled layout reads back as the same font |
| FontReader.FontBinaryReader.ReadFont | core/font/font_binary_reader.cpp:4-42 | succeeds exactly when the file can be read; on failure the data is cleared and the views are kept; on success the reader holds the parts of the decoded font |
| FontReader.WalkFont | core/font/font_binary_reader.cpp:11-39 | the running-offset walk returns the common block, chars, kerning pairs (when counted), header and pages of the decoded font |
| FontReader.FontWalk | core/font/font_binary_reader.cpp:11-39 | over a file that fits, each read of the walk starts where the previous part ends and stays inside the file |
| FontReader.ReadPages | core/font/font_binary_reader.cpp:30-39 | the pages loop reads the same pages as the page decoder |
| FontReader.FontBinaryReader.HoldsWrittenFont | core/font/font_binary_reader.cpp:4-42 | a reader that has read a consistent font's bytes holds that font's common block, chars, header and pages in its fields, and its kerning pairs when it counts any |
| FontCompiler.ReadDataU8 | font_compiler/font_compiler.cpp:21-27 | reads the byte at the offset and advances by one |
| FontCompiler.ReadDataU32 | font_compiler/font_compiler.cpp:21-27 | reads the little-endian u32 at the offset and advances by four |
| FontCompiler.BmfCommonRoundTrip | font_compiler/font_compiler.cpp:29-45 | ReadCommonBlock recovers the five u16 and five u8 fields of a BMFont common block and leaves both counts 0 |
| FontCompiler.CString | font_compiler/font_compiler.cpp:54-57 | a found name ends just before a NUL byte and holds no NUL |
| FontCompiler.CStringAt | font_compiler/font_compiler.cpp:54-57 | a name without NUL bytes, stored with its terminator, is read back unchanged |
| FontCompiler.PageNamesAsWritten | font_compiler/font_compiler.cpp:47-59 | the pages loop as written, advancing by strlen only, yields the counted number of names |
| FontCompiler.AsWrittenNamesAfterFirstEmpty | font_compiler/font_compiler.cpp:57 | as written, every page name after the first is empty, whatever the block holds |
| FontCompiler.PageNamesCounterexample | font_compiler/font_compiler.cpp:57 | on the block "a\0b\0" the loop as written reads ["a", ""], the corrected loop ["a", "b"] |
| FontCompiler.PageNames | font_compiler/font_compiler.cpp:47-59 | the corrected name walk, moving past each terminator, yields the counted number of names |
| FontCompiler.PageNamesAt | font_compiler/font_compiler.cpp:47-59 | page names written with their terminators are read back unchanged |
| FontCompiler.ReadPagesBlock | font_compiler/font_compiler.cpp:47-59 | the loop appends exactly the names the corrected walk reads |
| FontCompiler.ReadCharBlock | font_compiler/font_compiler.cpp:61-72 | appends blockSize / sizeof(Char) character records read one after another |
| FontCompiler.BmfKerningPairsRoundTrip | font_compiler/font_compiler.cpp:74-86 | BMFont kerning records (10 bytes each) are read back unchanged |
| FontCompiler.KerningCount | font_compiler/font_compiler.cpp:77-85 | the number of records read is the least one whose 10-byte records cover the block size |
| FontCompiler.KerningCountOfRecords | font_compiler/font_compiler.cpp:77-85 | a block holding whole records yields exactly that many records |
| FontCompiler.ReadKerningBlock | font_compiler/font_compiler.cpp:74-86 | appends one record per started 10 bytes of the block |
| FontCompiler.UnknownBlockSkipped | font_compiler/font_compiler.cpp:143-157 | blocks of other types, such as the info block, change nothing |
| FontCompiler.ParseBlocksExtends | font_compiler/font_compiler.cpp:137-160 | the gathered names, chars and kerning pairs only grow while blocks are parsed |
| FontCompiler.NextOffset | font_compiler/font_compiler.cpp:159 | the corrected block offset always moves forward |
| FontCompiler.BlockOffsetCounterexample | font_compiler/font_compiler.cpp:159 | an info block of size 0xFFFFFFFB after the identifier sends the 32-bit offset back to 4; corrected, parsing ends |
| FontCompiler.ReadBlocks | font_compiler/font_compiler.cpp:137-160 | the block loop produces the parse state of the block-by-block specification, with the corrected offset step of line 159 and the corrected page-name walk of line 57 |
| FontCompiler.ReadBlock | font_compiler/font_compiler.cpp:143-157 | one block is dispatched to the reader for its type |
| FontCompiler.GetRenderEngineFormat | font_compiler/font_compiler.cpp:88-99 | Gray8 maps to R8, RGBA8 to RGBA8, and every other image format to INVALID |
| FontCompiler.GetCuttlefishTextureFormat | font_compiler/font_compiler.cpp:101-112 | every image format other than Gray8 and RGBA8 maps to Unknown |
| FontCompiler.FormatsAgree | font_compiler/font_compiler.cpp:88-112 | the engine format and the texture-library format agree on the channel layout, and one is invalid exactly when the other is |
| FontCompiler.LoadPagesAll | font_compiler/font_compiler.cpp:165-178 | all pages load exactly when every name loads, and image i is then the image of name i |
| FontCompiler.LoadPageImages | font_compiler/font_compiler.cpp:165-178 | the loading loop stops at the first page that fails, as the specification says |
| FontCompiler.LoadStopsAtFailure | font_compiler/font_compiler.cpp:172-176 | once a page fails to load, later pages change nothing |
| FontCompiler.FontHeader | font_compiler/font_compiler.cpp:180-186 | the header has depth = page count, width and height = scaleW and scaleH, one mip, and is linear |
| FontCompiler.Truncated | font_compiler/font_compiler.cpp:216-217 | the bytes written for a page are its first dataSize mod 2^32 bytes |
| FontCompiler.ConvertPages | font_compiler/font_compiler.cpp:204-219 | the converted pages are the truncated conversions of the images, up to the first failed conversion |
| FontCompiler.ConvertStopsAtFailure | font_compiler/font_compiler.cpp:210-214 | once a conversion fails, later images change nothing |
| FontCompiler.CountedCommon | font_compiler/font_compiler.cpp:162-163 | the written common block holds the counts of the parsed chars and pairs (mod 2^32) and otherwise the parsed fields |
| FontCompiler.WritePages | font_compiler/font_compiler.cpp:198-219 | the writes are the font's front part followed by each converted page, stopping at a failed conversion |
| FontCompiler.CompileFont | font_compiler/font_compiler.cpp:114-224 | the compiler's outcome is that of the whole-run specification, which is corrected at lines 57, 159 and 185 |
| FontCompiler.CompileFailures | font_compiler/font_compiler.cpp:116-193 | each early return happens exactly on its condition: a missing file, a bad identifier or version, a page that fails to load, a font with no page (corrected line 185), an invalid format of the first page |
| FontCompiler.NoPagesCounterexample | font_compiler/font_compiler.cpp:185 | the file "BMF" 3 with no blocks parses to no page names, so every load succeeds with no image and line 185 has no first image to read |
| FontCompiler.WrittenFontReadsBack | font_compiler/font_compiler.cpp:198-219 | a font written in full fits the reader's walk and reads back as the parts that were written |
| FontCompiler.CompiledReadsBack | font_compiler/font_compiler.cpp:114-224 | when the page count matches the names and the counts fit, the font reader gets back the parsed chars, kerning pairs, common fields and converted pages |
| TextureBinaryReading.LastIndexOfTable | core/texture/texture_binary_reader.cpp:20 | GetMipsSize(Depth - 1, MipCount - 1) ends at the last entry of the size table |
| TextureBinaryReading.PreviousIndex | core/texture/texture_binary_reader.cpp:33 | the index GetPixels passes for the entry before (slice, mip) is one less, including when mipLevel - 1 wraps to 2^32 - 1 |
| TextureBinaryReading.RegionInTable | core/texture/texture_binary_reader.cpp:27-36 | the (slice, mip) entry lies within the table, and its region lies within the total pixel size |
| TextureBinaryReading.TableOfTexture | core/texture/texture_binary_reader.cpp:4-25 | in a well-formed file the pixel size read is the sum of the whole table and fits in the file |
| TextureBinaryReading.TextureBinaryReader.GetMipsSize | core/texture/texture_binary_reader.cpp:38-46 | sums the entries up to and including the slice-major index, mod 2^32 |
| TextureBinaryReading.TextureBinaryReader.ReadTexture | core/texture/texture_binary_reader.cpp:4-25 | succeeds exactly when the file can be read; on success header, mip table and pixels come from the file; on failure the data is cleared and the rest kept |
| TextureBinaryReading.TextureBinaryReader.GetPixels | core/texture/texture_binary_reader.cpp:27-36 | an out-of-range slice or mip gives an empty span; otherwise the bytes of that (slice, mip) region |
| TextureBinaryReading.TextureBinaryReader.PixelsAt | core/texture/texture_binary_reader.cpp:27-36 | the region of (slice, mip) starts after all earlier regions and has its table entry's length |
| TextureBinaryReading.TextureBinaryReader.EntriesBefore | core/texture/texture_binary_reader.cpp:33 | GetMipsSize(slice, mipLevel - 1) adds exactly the entries before (slice, mip) |
| TextureBinaryReading.TextureBinaryReader.RegionsContiguous | core/texture/texture_binary_reader.cpp:27-46 | consecutive (slice, mip) regions are adjacent, and the last ends at the total pixel size |
| StringEncoding.CombinePair | utils/string_encoding_util.cpp:12-16 | for a genuine surrogate pair, the bitwise join is 0x10000 + (hi - 0xD800) * 0x400 + (lo - 0xDC00) |
| StringEncoding.EncodeAboveBmp | utils/string_encoding_util.cpp:33-40 | a code point above 0xFFFF becomes a high surrogate followed by a low surrogate, with the RFC 2781 values |
| StringEncoding.DecodeWithoutHighSurrogates | utils/string_encoding_util.cpp:3-23 | units outside the high-surrogate range are copied unchanged |
| StringEncoding.DecodeEncode | utils/string_encoding_util.cpp:3-44 | decoding the UTF-16 encoding of Unicode scalar values gives them back |
| StringEncoding.EncodeDecode | utils/string_encoding_util.cpp:3-44 | encoding the decoding of well-formed UTF-16 gives it back |
| StringEncoding.Utf16ToUtf32 | utils/string_encoding_util.cpp:3-23 | the loop produces the decoding of the input |
| StringEncoding.Utf32ToUtf16 | utils/string_encoding_util.cpp:25-44 | the loop produces the encoding of the input |
| Arguments.ScanTable | utils/arguments.cpp:9-22 | a flag that occurs maps to the token after its last occurrence when that is a value, else ""; a flag that does not occur keeps its entry |
| Arguments.LeadingValuesIgnored | utils/arguments.cpp:14-20 | tokens before the first flag are ignored |
| Arguments.EveryFlagRegistered | utils/arguments.cpp:14-20 | every token starting with '-' ends up in the table |
| Arguments.ArgumentTable.Init | utils/arguments.cpp:9-22 | the table after Init is that of the scan specification |
| Arguments.ArgumentTable.Contains | utils/arguments.cpp:24-27 | true exactly when the flag is in the table |
| Arguments.ArgumentTable.Get | utils/arguments.cpp:29-32 | the flag's value, or "" for an absent flag |
| Arguments.GetAfterInit | utils/arguments.cpp:9-32 | after Init, a flag is present exactly when it occurs, with the value following its last occurrence |
| Defines.Widen | shader_compiler/defines.h:16 | each char of a piece becomes a wide char of the same signed value |
| Defines.Narrow | shader_compiler/defines.h:44 | each wide char is truncated to a char |
| Defines.NarrowWiden | shader_compiler/defines.h:16-44 | widening then narrowing gives back the original bytes |
| Defines.Split | shader_compiler/defines.h:11 | splitting yields at least one piece, and no piece holds the separator |
| Defines.JoinSplit | shader_compiler/defines.h:11 | joining the pieces with the separator gives the input back |
| Defines.GetDefines | shader_compiler/defines.h:9-20 | one wide string per comma-separated piece, in order |
| Defines.GetDefinesRoundTrip | shader_compiler/defines.h:9-20 | narrowing the defines and joining them with ',' recovers the input list |
| Defines.Sort | shader_compiler/defines.h:39 | the sorted defines are a permutation of the input, in std::wstring order |
| Defines.SortedUnique | shader_compiler/defines.h:39 | a sorted list is determined by its elements, so the sort result does not depend on the input order |
| Defines.CombinedLength | shader_compiler/defines.h:41-46 | the combined string ends in ',' and has one ',' more per define than the defines hold |
| Defines.XorOperand | shader_compiler/defines.h:31-32 | `hash ^= c` promotes the signed char to uint64_t, which sign-extends it; ASCII bytes are unchanged |
| Defines.FnvAscii | shader_compiler/defines.h:24-37 | on ASCII define names the hash is textbook FNV-1a 64 |
| Defines.DecimalRoundTrip | shader_compiler/defines.h:48 | the decimal text of the hash names the number exactly |
| Defines.GetDefinesHash | shader_compiler/defines.h:22-49 | the computed hash string is that of the hash specification |
| Defines.DefinesHashPermutation | shader_compiler/defines.h:22-49 | the hash does not depend on the order in which the defines are given |
| GraphicsBackend.GetBackendLiteral | shader_compiler/graphics_backend.h:15-28 | "" exactly for values outside the enum |
| GraphicsBackend.GetBackendDefine | shader_compiler/graphics_backend.h:30-43 | "" exactly for values outside the enum |
| GraphicsBackend.LiteralsDistinct | shader_compiler/graphics_backend.h:15-28 | different backends have different literals |
| GraphicsBackend.DefinesDistinct | shader_compiler/graphics_backend.h:30-43 | different backends have different defines |
| GraphicsBackend.TryGetBackend | shader_compiler/graphics_backend.h:45-58 | found exactly when some backend has the literal, which is then returned; otherwise the out-parameter is unchanged |
| GraphicsBackend.LiteralLookup | shader_compiler/graphics_backend.h:45-58 | looking up a backend's own literal finds that backend |
| GraphicsBuffers.ClampWrite | core/graphics_buffer/graphics_buffer.cpp:28-29 | the clamped write stays inside the buffer, is unchanged when it fits, and is cut at the end otherwise |
| GraphicsBuffers.ClampIdempotent | core/graphics_buffer/graphics_buffer.cpp:28-29 | clamping a clamped write changes nothing |
| GraphicsBuffers.ClampLargest | core/graphics_buffer/graphics_buffer.cpp:28-29 | the clamped write is the largest one that starts at the clamped offset and fits |
| GraphicsBuffers.Write | core/graphics_buffer/graphics_buffer.cpp:31 | the data lands at the offset and every other byte is kept |
| GraphicsBuffers.BufferCount | core/graphics_buffer/graphics_buffer.cpp:10-14 | a double-buffered buffer owns one backend buffer per frame in flight, otherwise one |
| GraphicsBuffers.ShrinkCopyOverflows | core/graphics_buffer/graphics_buffer.cpp:47 | shrinking a 16-byte buffer to 8 bytes copies 16 bytes into the new 8-byte buffer |
| GraphicsBuffers.CopyLength | core/graphics_buffer/graphics_buffer.cpp:47 | the corrected copy length is the smaller of the old and new sizes |
| GraphicsBuffers.Resized | core/graphics_buffer/graphics_buffer.cpp:45-48 | the new buffer has the new size and starts with the carried-over bytes, as many as the corrected copy length of line 47 gives |
| GraphicsBuffers.GrowKeepsContents | core/graphics_buffer/graphics_buffer.cpp:34-54 | growing keeps every old byte in place |
| GraphicsBuffers.GraphicsBuffer.SetData | core/graphics_buffer/graphics_buffer.cpp:26-32 | the clamped write goes to the current frame's backend buffer, and only there |
| GraphicsBuffers.GraphicsBuffer.Resize | core/graphics_buffer/graphics_buffer.cpp:34-54 | size 0 or the current size changes nothing; otherwise every backend buffer is replaced by its resized copy, with the corrected copy length of line 47 |
| RingBuffers.AlignSize | core/graphics_buffer/ring_buffer.cpp:5-14 | an alignment of 0 or an aligned size is kept; otherwise the result is the next multiple of the alignment |
| RingBuffers.AlignSizeLeast | core/graphics_buffer/ring_buffer.cpp:5-14 | the aligned size is the least multiple of the alignment that holds the size |
| RingBuffers.SlotWritesDisjoint | core/graphics_buffer/ring_buffer.cpp:23-27 | writes that fit their slots touch disjoint bytes when the slots differ |
| RingBuffers.SlotWriteInside | core/graphics_buffer/ring_buffer.cpp:23-27 | a write that fits its slot stays inside the ring buffer |
| RingBuffers.NextSlot | core/graphics_buffer/ring_buffer.cpp:25 | the next slot follows the current one and wraps to 0 after the last |
| RingBuffers.SlotAfterIsMod | core/graphics_buffer/ring_buffer.cpp:16-27 | the n-th write to a fresh ring buffer goes to slot (n - 1) mod capacity |
| RingBuffers.RingBuffer.constructor | core/graphics_buffer/ring_buffer.cpp:16-21 | slots of the aligned element size, one backend buffer holding all of them, and no slot written yet |
| RingBuffers.RingBuffer.SetData | core/graphics_buffer/ring_buffer.cpp:23-27 | moves to the next slot, then writes (clamped) at the offset inside it |
| UniformBlocks.UniformBlock.constructor | core/uniform_block/uniform_block.cpp:8-15 | binds the buffer, allocates `size` bytes and unbinds it |
| UniformBlocks.UniformBlock.Bind | core/uniform_block/uniform_block.cpp:22-27 | binds the whole block, [0, size), at the binding point; the contents are unchanged |
| UniformBlocks.UniformBlock.SetData | core/uniform_block/uniform_block.cpp:29-37 | the clamped write, between binding the block and unbinding it |
| DrawCalls.Combine | core/bounds/bounds.cpp:5-11 | the combined box holds both boxes and lies inside every box that holds both |
| DrawCalls.Passes | core/graphics/render_settings/draw_call_filter.cpp:26-29 | a filter without a delegate rejects; otherwise the delegate decides |
| DrawCalls.OpaqueTransparentPartition | core/graphics/render_settings/draw_call_filter.cpp:4-14 | Opaque passes render queues below 3000, Transparent the rest; each call passes exactly one of them |
| DrawCalls.AllAndShadowCasters | core/graphics/render_settings/draw_call_filter.cpp:16-24 | All passes every call; ShadowCasters exactly the shadow casters |
| DrawCalls.NullFilterRejects | core/graphics/render_settings/draw_call_filter.cpp:28 | a filter without a delegate rejects every call |
| RenderQueues.SetupCall | core/graphics/render_queue/render_queue.cpp:27-46 | a renderer yields a call exactly when it exists, has geometry and a material (the override first) and is visible when culling is on; the call has one model matrix |
| RenderQueues.SetupFromRenderers | core/graphics/render_queue/render_queue.cpp:21-50 | every draw call comes from one of the renderers |
| RenderQueues.SetupDrawCalls | core/graphics/render_queue/render_queue.cpp:21-50 | the loop produces the calls of the renderers, in renderer order |
| RenderQueues.PassingCount | core/graphics/render_queue/render_queue.cpp:52-64 | a call occurs among the passing calls as often as in the input when it passes, and never otherwise |
| RenderQueues.FilterDrawCalls | core/graphics/render_queue/render_queue.cpp:52-64 | the result is a permutation of the passing calls (order not kept), and every call in it passes |
| RenderQueues.TotalPerm | core/graphics/render_queue/render_queue.cpp:66-99 | the number of model matrices does not depend on the order of the calls |
| RenderQueues.Joined | core/graphics/render_queue/render_queue.cpp:89-90 | the leader gains the call's first matrix, and its box holds both boxes |
| RenderQueues.BatchDrawCalls | core/graphics/render_queue/render_queue.cpp:66-99 | non-instanceable calls are kept as they are; each instanceable call left is an instanced leader with at most MaxInstancingCount matrices; every call started as one input call: same material, geometry and shadow flag, that call's matrices first and its box inside; no matrix is lost; every (material, geometry) key keeps exactly the matrices of its input calls; at most one call per key holds fewer than MaxInstancingCount matrices, so calls of a key are merged until their group is full |
| RenderQueues.JoinMovesLastForward | core/graphics/render_queue/render_queue.cpp:92-94 | a join moves the last call into the joined call's place, so a later call of a key can be scanned, and lead its group, before an earlier one |
| RenderQueues.GatherPerm | core/graphics/render_queue/render_queue.cpp:66-99 | the matrices a selection gathers from the calls do not depend on the order of the calls |
| RenderQueues.OpenCountPerm | core/graphics/render_queue/render_queue.cpp:96-97 | the number of calls of a key still open for instancing does not depend on the order of the calls |
| RenderQueues.FullCallsFill | core/graphics/render_queue/render_queue.cpp:96-97 | each call of a key that is no longer open brings at least MaxInstancingCount of the key's matrices, and each non-empty call at least one |
| RenderQueues.OneCallPerSmallKey | core/graphics/render_queue/render_queue.cpp:78-97 | with at most one open call of a key and fewer matrices than MaxInstancingCount, the key has exactly one call, or none when it has no matrices |
| RenderQueues.SortDrawCalls | core/graphics/render_queue/render_queue.cpp:101-108 | NO_SORTING keeps the order; other modes give a permutation ordered by the comparer's rank |
| RenderQueues.PreparedTotal | core/graphics/render_queue/render_queue.cpp:111-122 | after preparation there is one model matrix per passing renderer call |
| RenderQueues.SortedPass | core/graphics/render_queue/render_queue.cpp:111-122 | every prepared call passes the pass's filter |
| RenderQueues.RenderQueue.Prepare | core/graphics/render_queue/render_queue.cpp:111-122 | the frustum is rebuilt unless culling is frozen; the prepared calls all pass the filter, hold one matrix per passing renderer call, keep each key's matrices, leave at most one open group per key, each started as a passing call, and are ordered by the comparer unless sorting is off |
| RenderQueues.PreparedMergesKey | core/graphics/render_queue/render_queue.cpp:111-122 | after preparation, the passing calls of a key whose matrices fit in one instanced draw are a single call |
| RenderQueues.RenderQueue.Clear | core/graphics/render_queue/render_queue.cpp:124-127 | no draw calls are left |
| RenderQueues.RenderQueue.IsEmpty | core/graphics/render_queue/render_queue.cpp:129-132 | true exactly when there are no draw calls |
| Sequences.SwapRemove | core/graphics/render_queue/render_queue.cpp:59-60 | one element shorter, the removed element is gone from the multiset, and the last element takes its place |
| Sequences.SortBy | core/graphics/render_queue/render_queue.cpp:107 | a permutation of the input, ordered by rank |
| Sequences.FirstIndex | texture_compressor/texture_compressor_formats.cpp:119-125 | the first matching index, or -1 when nothing matches |
| Sequences.FindFirst | texture_compressor/texture_compressor_formats.cpp:119-125 | the front-to-back search returns the first matching index |
| UITextFields.MoveCursor | core/ui/ui_text_field.cpp:111-116 | an offset of 0 does nothing; otherwise the cursor moves by the offset, clamped to the text |
| UITextFields.EraseInserted | core/ui/ui_text_field.cpp:75-97 | erasing a just-inserted character gives the text back |
| UITextFields.HandleEvent | core/ui/ui_text_field.cpp:33-98 | the cursor stays inside the text; an event that is not consumed changes nothing |
| UITextFields.PointerActivates | core/ui/ui_text_field.cpp:35-40 | a pointer press or release shows the keyboard, activates the cursor and consumes the event |
| UITextFields.ArrowsMoveCursor | core/ui/ui_text_field.cpp:47-62 | LEFT and RIGHT move the cursor by one, clamped to the text |
| UITextFields.DeleteRemovesAtCursor | core/ui/ui_text_field.cpp:63-69 | DELETE before the end removes the character at the cursor; at the end nothing happens |
| UITextFields.BackspaceRemovesBeforeCursor | core/ui/ui_text_field.cpp:77-84 | backspace after the first character removes the character before the cursor and moves it back; at 0 nothing happens |
| UITextFields.ReturnFinishes | core/ui/ui_text_field.cpp:85-91 | carriage return reports the text to OnFinish when it is set and asks to lose focus |
| UITextFields.CharInserted | core/ui/ui_text_field.cpp:92-96 | any other character is inserted at the cursor and the cursor moves past it |
| UITextFields.TypeThenBackspace | core/ui/ui_text_field.cpp:75-97 | typing a character and then backspace gives back the same text and cursor |
| UITextFields.SetTextLeavesCursorOutside | core/ui/ui_text_field.cpp:22-25 | as written, SetText("") after typing "abcd" leaves the cursor at 4, past the end |
| UITextFields.SetText | core/ui/ui_text_field.cpp:22-25 | the corrected SetText replaces the text and keeps the cursor inside it |
| UITextFields.UITextField.constructor | core/ui/ui_text_field.cpp:10-15 | cursor at 0 and hidden |
| UITextFields.UITextField.SetCursorActive | core/ui/ui_text_field.cpp:105-109 | only the cursor's visibility changes |
| UITextFields.UITextField.LoseFocus | core/ui/ui_text_field.cpp:100-103 | the cursor is hidden; nothing else changes |
| UITextFields.UITextField.Done | core/ui/ui_text_field.cpp:27-31 | the text goes to OnFinish when it is set; the field is unchanged |
| UITextFields.UITextField.MoveCursorBy | core/ui/ui_text_field.cpp:111-116 | the field's state becomes that of MoveCursor |
| UITextFields.UITextField.UpdateTextTo | core/ui/ui_text_field.cpp:124-131 | the text is replaced, then the cursor moves by the offset |
| UITextFields.UITextField.SetTextTo | core/ui/ui_text_field.cpp:22-25 | the corrected SetText, keeping the cursor inside the text |
| UITextFields.UITextField.HandleEventInfo | core/ui/ui_text_field.cpp:33-98 | the field's state, the returned event info and the effects are those of HandleEvent |
| UIMasks.AddChildTo | core/ui/ui_mask.cpp:26-32 | with fewer than two children the child is appended; otherwise it goes just before the last child; nothing is lost |
| UIMasks.AddChildrenKeepEnds | core/ui/ui_mask.cpp:26-32 | once there are two children, the first stays first and the last stays last |
| UIMasks.UIMask.Create | core/ui/ui_mask.cpp:4-16 | the mask under the parent, with an opening and a closing stencil at (0, 0) of the mask's size; its children start as the opening then the closing stencil |
| UIMasks.InsertBeforeLast | core/ui/ui_mask.cpp:28-29 | with at least two children, a new child goes just before the last one |
| UIMasks.AddedBetweenStencils | core/ui/ui_mask.cpp:9-32 | children added to a new mask land in the order they are added, between the opening and the closing stencil |
| UIMasks.UIMask.Update | core/ui/ui_mask.cpp:18-24 | both stencils take the mask's current size; nothing else changes |
| UIMasks.UIMask.AddChild | core/ui/ui_mask.cpp:26-32 | the children become those of AddChildTo |
| WindowsIdPools.NextIdFresh | game_window/windows/windows_id_pool.cpp:3-25 | the id handed out is never one in use |
| WindowsIdPools.TakeKeepsInv | game_window/windows/windows_id_pool.cpp:12-24 | handing out an id keeps the ids in use, the pool and the count consistent |
| WindowsIdPools.ReturnKeepsInv | game_window/windows/windows_id_pool.cpp:27-42 | returning an id in use keeps them consistent |
| WindowsIdPools.WindowsIdPool.GetID | game_window/windows/windows_id_pool.cpp:3-25 | the first request of a type gets 0; later requests bump the count and get the most recently returned id, or the count when none is pooled |
| WindowsIdPools.WindowsIdPool.ReturnID | game_window/windows/windows_id_pool.cpp:27-42 | a known type pools the id and lowers its count; an unknown type gets a pool holding just the id and count 0 |
| Lights.TypeFromJson | core/light/light.cpp:4-9 | "POINT" selects POINT, "SPOT" selects SPOT, anything else DIRECTIONAL |
| Lights.TypeNameRoundTrip | core/light/light.cpp:4-9 | every light type reads back from its name |
| Lights.OptionalFloat | core/light/light.cpp:16-19 | an absent field keeps the current value; a present one must be a number |
| Lights.Create | core/light/light.cpp:11-21 | succeeds exactly when Type and Intensity are present, Intensity converts to a float, and Range and CutOffAngle convert when present; a missing Type or Intensity is reported by name, any other failure is a field that does not convert; on success Range and CutOffAngle keep their defaults when absent and every present field is taken from the JSON |
| Lights.CreateReadsAllFields | core/light/light.cpp:11-21 | with all four fields given, the light takes each of them |
| Lights.LightRegistry.Distinct | core/light/light.cpp:25-38 | the registry never holds a light twice |
| Lights.LightRegistry.Add | core/light/light.cpp:27-31 | the new light is appended, with its position as its index |
| Lights.LightRegistry.Remove | core/light/light.cpp:33-38 | the last light takes the removed light's place; the registry loses exactly that light |
| DebugLog.PutMap | utils/debug.cpp:58-61 | `map[id] = listener` stores the callback under the id and leaves every other id alone |
| DebugLog.EraseMap | utils/debug.cpp:63-70 | erasing drops the id and leaves every other id alone |
| DebugLog.DeliveriesOncePerListener | utils/debug.cpp:16-23 | every registered listener gets the message exactly once, with its own callback, in ascending id order |
| DebugLog.Line | utils/debug.cpp:25-56 | errors go to stderr and the rest to stdout, and the line ends with the message |
| DebugLog.Debug.AddListener | utils/debug.cpp:58-61 | registers the callback, replacing any under the same id |
| DebugLog.Debug.RemoveListener | utils/debug.cpp:63-70 | drops the id; an unknown id changes nothing |
| DebugLog.Debug.NotifyListeners | utils/debug.cpp:16-23 | calls every listener in map order |
| DebugLog.Debug.Log | utils/debug.cpp:25-56 | the message goes to the console at its level, then to every listener |
| PropertyBlocks.Lookup | core/property_block/property_block.cpp:11-14 | a present name gives its value, an absent one the default |
| PropertyBlocks.SetThenGet | core/property_block/property_block.cpp:6-14 | after a set, the name reads back the value set |
| PropertyBlocks.SetKeepsOthers | core/property_block/property_block.cpp:6-14 | a set leaves every other name as it was |
| PropertyBlocks.LaterSetWins | core/property_block/property_block.cpp:6-9 | of two sets of one name, the later wins |
| PropertyBlocks.ZeroMatrix | core/property_block/property_block.cpp:44-47 | the default matrix has sixteen zero entries |
| PropertyBlocks.PropertyBlock.SetTexture | core/property_block/property_block.cpp:6-9 | stores the texture under the name; the other maps are unchanged |
| PropertyBlocks.PropertyBlock.GetTexture | core/property_block/property_block.cpp:11-14 | the stored texture, or null for an absent name |
| PropertyBlocks.PropertyBlock.SetVector | core/property_block/property_block.cpp:17-20 | stores the vector; the other maps are unchanged |
| PropertyBlocks.PropertyBlock.GetVector | core/property_block/property_block.cpp:22-25 | the stored vector, or the zero vector |
| PropertyBlocks.PropertyBlock.SetFloat | core/property_block/property_block.cpp:28-31 | stores the float; the other maps are unchanged |
| PropertyBlocks.PropertyBlock.GetFloat | core/property_block/property_block.cpp:33-36 | the stored float, or 0 |
| PropertyBlocks.PropertyBlock.SetMatrix | core/property_block/property_block.cpp:39-42 | stores the matrix; the other maps are unchanged |
| PropertyBlocks.PropertyBlock.GetMatrix | core/property_block/property_block.cpp:44-47 | the stored matrix, or the zero matrix |
| UniformTypes.IsTexture | core/shader/uniform_type/uniform_type.cpp:5-10 | true exactly for the three sampler types |
| UniformTypes.ConvertUniformType | core/shader/uniform_type/uniform_type.cpp:12-43 | UNKNOWN exactly for GL codes outside the ten recognised ones |
| UniformTypes.ConvertRoundTrip | core/shader/uniform_type/uniform_type.cpp:12-43 | each known type comes from exactly one GL code |
| UniformTypes.ConvertInjective | core/shader/uniform_type/uniform_type.cpp:12-43 | distinct recognised codes give distinct types |
| UniformTypes.TextureCodes | core/shader/uniform_type/uniform_type.cpp:5-43 | a converted type is a texture exactly for the three sampler codes |
| TextureCompressorFormats.NameIn | texture_compressor/texture_compressor_formats.cpp:117-128 | the name of the first row for the format, or "Unknown" when no row has it |
| TextureCompressorFormats.GetTextureFormatName | texture_compressor/texture_compressor_formats.cpp:117-128 | the search over the format table returns that name |
| TextureCompressorFormats.DistinctRowsNamed | texture_compressor/texture_compressor_formats.cpp:117-128 | in a table without repeated formats, every row's format gets that row's name |
| TextureCompressorFormats.GetTextureTypeInfo | texture_compressor/texture_compressor_formats.cpp:130-143 | the first table row of the type, or count -1 when none |
| TextureCompressorFormats.TypeInfoCounts | texture_compressor/texture_compressor_formats.cpp:130-143 | a 2D texture has one slice, a cubemap six, any other type count -1 |
| Profilers.Rotated | core/editor/profiler/profiler.cpp:106-113 | at MAX_FRAMES the oldest frame goes; an empty unsorted frame with the new number is appended; the others keep their order |
| Profilers.RotatedValid | core/editor/profiler/profiler.cpp:106-113 | a history stays within MAX_FRAMES, non-empty, with honest sorted flags |
| Profilers.AddedTo | core/editor/profiler/profiler.cpp:164-188 | frame 0 adds to the newest frame, any other number to the first frame with that number, clearing its sorted flag; no such frame, no change |
| Profilers.AddedToValid | core/editor/profiler/profiler.cpp:164-188 | adding a marker keeps the number and order of frames and their honest flags |
| Profilers.QueueContext | core/editor/profiler/profiler.cpp:127-137 | the copy queue feeds GPU_COPY, every other queue GPU_RENDER, never the main thread |
| Profilers.WithResults | core/editor/profiler/profiler.cpp:125-147 | the results of a GPU marker never touch the main thread's frames |
| Profilers.WithMarkersStep | core/editor/profiler/profiler.cpp:118-153 | handling one more resolved marker adds its results to those handled before |
| Profilers.WithResultsValid | core/editor/profiler/profiler.cpp:125-147 | GPU results keep every history valid and change no frame number |
| Profilers.SortedFrame | core/editor/profiler/profiler.cpp:28-35 | the frame keeps its number and markers; an unsorted frame with several markers is sorted by beginning and flagged |
| Profilers.StartedValid | core/editor/profiler/profiler.cpp:106-116 | starting a frame keeps every history bounded and honest, and none is empty |
| Profilers.Profiler.constructor | core/editor/profiler/profiler.cpp:11-12 | disabled, depth 0 and no frames in every context, nothing pending |
| Profilers.Profiler.IncrementDepth | core/editor/profiler/profiler.cpp:15-18 | returns the depth before the increment |
| Profilers.Profiler.DecrementDepth | core/editor/profiler/profiler.cpp:20-23 | returns the depth before the decrement |
| Profilers.Profiler.SetEnabled | core/editor/profiler/profiler.cpp:96-99 | only the flag changes |
| Profilers.Profiler.AddMarkerInfo | core/editor/profiler/profiler.cpp:159-189 | nothing happens while disabled; otherwise the context's frames become AddedTo |
| Profilers.Profiler.OpenMarker | core/editor/profiler/profiler.cpp:67-71 | a main-thread marker opened now at the current depth, which then goes up by one |
| Profilers.Profiler.CloseMarker | core/editor/profiler/profiler.cpp:73-78 | the marker ends now and joins the newest main-thread frame while enabled; the depth goes down by one |
| Profilers.Profiler.MarkerScope | core/editor/profiler/profiler.cpp:67-78 | the depth comes back to where it was, and the newest main-thread frame gains one marker at the depth the scope opened at |
| Profilers.Profiler.OpenGpuMarker | core/editor/profiler/profiler.cpp:80-84 | a GPU-render marker at the current depth, with a backend marker only while enabled |
| Profilers.Profiler.CloseGpuMarker | core/editor/profiler/profiler.cpp:86-94 | while enabled the marker waits for the GPU; the depth goes down by one |
| Profilers.Profiler.RotateFrames | core/editor/profiler/profiler.cpp:106-113 | every context's history is rotated |
| Profilers.Profiler.AddResults | core/editor/profiler/profiler.cpp:125-147 | the active results of one resolved marker join their contexts' frames |
| Profilers.Profiler.Handle | core/editor/profiler/profiler.cpp:120-152 | a resolved marker gives up its results and is swapped out of the pending list |
| Profilers.Profiler.ResolvePending | core/editor/profiler/profiler.cpp:118-153 | every resolved marker is handled and removed, the unresolved stay, no marker is lost, and the frames gain the handled markers' results |
| Profilers.Profiler.SortMarkers | core/editor/profiler/profiler.cpp:25-36 | every frame of the context ends up sorted by beginning; other contexts are unchanged |
| Profilers.Profiler.StartFrames | core/editor/profiler/profiler.cpp:106-116 | new frames everywhere, and a separator opens the main thread's new frame |
| Profilers.Profiler.BeginNewFrame | core/editor/profiler/profiler.cpp:101-157 | while disabled nothing changes; otherwise new frames, resolved GPU markers handled, and the GPU contexts' frames sorted |
| Profilers.NewMainFrames | core/editor/profiler/profiler.cpp:106-116 | the main-thread history is rotated, with the new frame holding just a separator |
| OpenGLRenderTargets.ResetState | graphics_backend/graphics_backend_implementations/graphics_backend_api_opengl.cpp:166-182 | every attachment goes to the backbuffer with no target and no clear; only COLOR0 and DEPTH_STENCIL are enabled |
| OpenGLRenderTargets.ClearBits | graphics_backend/graphics_backend_implementations/graphics_backend_api_opengl.cpp:503-531 | a cleared attachment always clears some buffer |
| OpenGLRenderTargets.Attached | graphics_backend/graphics_backend_implementations/graphics_backend_api_opengl.cpp:479-532 | the attachment's texture, level and layer are set (target 0 for the backbuffer), it clears only on a Clear load action, the depth/stencil slots exclude each other, every other slot is unchanged |
| OpenGLRenderTargets.ClearMaskBuffers | graphics_backend/graphics_backend_implementations/graphics_backend_api_opengl.cpp:1021-1028 | a buffer is cleared exactly when some enabled entry asks for it |
| OpenGLRenderTargets.Bindings | graphics_backend/graphics_backend_implementations/graphics_backend_api_opengl.cpp:1040-1047 | only enabled attachments are bound |
| OpenGLRenderTargets.BindingsComplete | graphics_backend/graphics_backend_implementations/graphics_backend_api_opengl.cpp:1040-1047 | every enabled attachment is bound exactly once, in attachment order |
| OpenGLRenderTargets.ResetPass | graphics_backend/graphics_backend_implementations/graphics_backend_api_opengl.cpp:1016-1068 | after a reset the next pass draws to the backbuffer and clears nothing |
| OpenGLRenderTargets.AttachedPass | graphics_backend/graphics_backend_implementations/graphics_backend_api_opengl.cpp:479-532 | attaching a real texture takes the next pass off the backbuffer, and a Clear load action clears its buffers |
| OpenGLRenderTargets.OpenGLBackend.constructor | graphics_backend/graphics_backend_implementations/graphics_backend_api_opengl.cpp:279 | the table starts reset, with no debug group open |
| OpenGLRenderTargets.OpenGLBackend.ResetRenderTargetStates | graphics_backend/graphics_backend_implementations/graphics_backend_api_opengl.cpp:166-182 | every entry becomes its reset state |
| OpenGLRenderTargets.OpenGLBackend.AttachRenderTarget | graphics_backend/graphics_backend_implementations/graphics_backend_api_opengl.cpp:479-532 | the table becomes that of Attached |
| OpenGLRenderTargets.OpenGLBackend.PushDebugGroup | graphics_backend/graphics_backend_implementations/graphics_backend_api_opengl.cpp:947-952 | one more debug group is open |
| OpenGLRenderTargets.OpenGLBackend.PopDebugGroup | graphics_backend/graphics_backend_implementations/graphics_backend_api_opengl.cpp:954-961 | only an open group can be closed, and one fewer is open |
| OpenGLRenderTargets.OpenGLBackend.BeginRenderPass | graphics_backend/graphics_backend_implementations/graphics_backend_api_opengl.cpp:1016-1060 | the pass uses the backbuffer exactly when every enabled entry is backbuffer or has no target; it clears the union of the enabled entries' flags, binds the enabled attachments otherwise, and opens a debug group |
| OpenGLRenderTargets.OpenGLBackend.ScanStates | graphics_backend/graphics_backend_implementations/graphics_backend_api_opengl.cpp:1018-1028 | the first loop computes the backbuffer decision and the clear mask |
| OpenGLRenderTargets.OpenGLBackend.CollectBindings | graphics_backend/graphics_backend_implementations/graphics_backend_api_opengl.cpp:1040-1047 | the binding loop yields the bindings of the enabled entries |
| OpenGLRenderTargets.OpenGLBackend.EndRenderPass | graphics_backend/graphics_backend_implementations/graphics_backend_api_opengl.cpp:1062-1068 | the table is reset and the pass's debug group is closed |
| OpenGLRenderTargets.OpenGLBackend.BeginCopyPass | graphics_backend/graphics_backend_implementations/graphics_backend_api_opengl.cpp:1070-1073 | one more debug group is open |
| OpenGLRenderTargets.OpenGLBackend.EndCopyPass | graphics_backend/graphics_backend_implementations/graphics_backend_api_opengl.cpp:1075-1078 | the copy pass's debug group is closed |
| AndroidLaunchers.PointerCall | launchers/android_launcher/AndroidStudio/app/src/main/java/com/artemkonyshev/renderengine/MainActivity.java:57-70 | at most one engine call per pointer |
| AndroidLaunchers.EveryPointerCalled | launchers/android_launcher/AndroidStudio/app/src/main/java/com/artemkonyshev/renderengine/MainActivity.java:57-70 | DOWN, MOVE, UP and CANCEL make one call of their kind for every pointer, in order |
| AndroidLaunchers.OnlyActionIndexCalled | launchers/android_launcher/AndroidStudio/app/src/main/java/com/artemkonyshev/renderengine/MainActivity.java:57-70 | POINTER_DOWN and POINTER_UP make one call, for the pointer at the action index only |
| AndroidLaunchers.OtherActionsSilent | launchers/android_launcher/AndroidStudio/app/src/main/java/com/artemkonyshev/renderengine/MainActivity.java:57-70 | any other action makes no call |
| AndroidLaunchers.CallsForPointers | launchers/android_launcher/AndroidStudio/app/src/main/java/com/artemkonyshev/renderengine/MainActivity.java:49-74 | at most one call per pointer, each a touch call for one of the pointers |
| AndroidLaunchers.DistinctCallIds | launchers/android_launcher/AndroidStudio/app/src/main/java/com/artemkonyshev/renderengine/MainActivity.java:49-74 | with distinct pointer ids, no pointer id gets two calls |
| AndroidLaunchers.MainActivity.constructor | launchers/android_launcher/AndroidStudio/app/src/main/java/com/artemkonyshev/renderengine/MainActivity.java:28-47 | a fresh engine that has received no call |
| AndroidLaunchers.MainActivity.OnTouchEvent | launchers/android_launcher/AndroidStudio/app/src/main/java/com/artemkonyshev/renderengine/MainActivity.java:49-74 | the engine receives exactly the touch calls of the batch; the event is always consumed |
| AndroidLaunchers.RenderEngineGLRenderer.constructor | launchers/android_launcher/AndroidStudio/app/src/main/java/com/artemkonyshev/renderengine/RenderEngineGLRenderer.java:18-21 | no engine yet, and a size of 0 by 0 |
| AndroidLaunchers.RenderEngineGLRenderer.OnSurfaceCreated | launchers/android_launcher/AndroidStudio/app/src/main/java/com/artemkonyshev/renderengine/RenderEngineGLRenderer.java:23-28 | a fresh engine, initialised once with the asset manager |
| AndroidLaunchers.RenderEngineGLRenderer.OnSurfaceChanged | launchers/android_launcher/AndroidStudio/app/src/main/java/com/artemkonyshev/renderengine/RenderEngineGLRenderer.java:30-35 | only the remembered size changes |
| AndroidLaunchers.RenderEngineGLRenderer.OnDrawFrame | launchers/android_launcher/AndroidStudio/app/src/main/java/com/artemkonyshev/renderengine/RenderEngineGLRenderer.java:37-41 | one tick at the size last remembered |

## Left out

- Files, the console streams, GL and backend calls, and the Android platform are not modelled as I/O:
  - a file's contents become a parameter (`None` when it cannot be opened);
  - console lines and listener calls are recorded in a field;
  - backend calls are recorded as events, or left out where nothing reads them back.
- The structs in `core/font/font_data.h` and `core/texture/texture_header.h` are not part of this model. The model fixes a packed little-endian layout, which the writer and the reader share:
  - common block: 24 bytes;
  - character record: 20 opaque bytes;
  - kerning pair: 12 bytes, with 2 bytes of padding;
  - texture header: six u32.
- The texture format codes are taken to be the GL enum values: R8 = 0x8229, RGBA8 = 0x8058. The enum header is not part of this model.
- Image loading and texture conversion belong to an external image library. They become the parameters `load` and `convert` of `FontCompiler.CompileFont`.
- `FontCompiler.CompileFont`: creating the output directory and a failing output stream are not modelled.
- `FontCompiler.CompileFont` requires an input of at least 4 bytes whose block headers and block reads all lie inside the buffer, walking with the corrected offset step. The source reads the identifier and the blocks without checking, so shorter or truncated files are not modelled.
- `FontCompiler.CompileFont` follows the corrected lines 57, 159 and 185 (see Findings): page names advance past their terminators, the block offset never wraps, and a font with no page ends with NoPages instead of reading a missing first image.
- `FontCompiler.ReadBlocks` follows the corrected lines 57 and 159 (see Findings), not the loop as written.
- `GraphicsBuffers.Resized` copies the smaller of the old and new sizes, the corrected line 47 (see Findings). As written, shrinking copies past the end of the new buffer, which has no defined result to model.
- `GraphicsBuffers.GraphicsBuffer.Resize` builds each new backend buffer with `Resized`, so it follows the corrected line 47 too.
- `FontCompiler.ReadKerningBlock`: the records must fit in the buffer. The source reads past a block whose size is not a multiple of 10.
- `FontReader.FontBinaryReader.ReadFont` requires a file long enough for every read the walk makes, because the source reads without checking.
- `TextureBinaryReading.TextureBinaryReader.ReadTexture` requires the same, for the same reason: the header's depth and mip count are at least 1, their product and the sum of the mip sizes are below 2^32, and the size table and pixels fit in the file. With depth 0, `Depth - 1` at texture_binary_reader.cpp:20 wraps around.
- `Defines.GetDefines`: `string_split.h` is not part of this model. Splitting is taken to cut at every ',' and keep empty pieces.
- `shader_compiler/defines.h` PrintDefines (lines 51-70) only prints, so it is left out.
- `Defines.Widen` takes wchar_t to be a signed 32-bit type, as on Linux, macOS and Android. On Windows wchar_t is an unsigned 16-bit type, so a char above 0x7F widens to 0xFF80..0xFFFF instead. Narrowing still gives the byte back there, but such a define sorts after the ASCII ones instead of before them; the Windows order is not modelled.
- `Sequences.SortBy` is an insertion sort on an integer rank standing for the comparer's order.
  - The source's std::sort is not stable. The model fixes one of the orders it may produce.
  - The draw-call comparer's camera-distance rule (float math) is not part of this model.
- Matrices and bounds are not float data here:
  - a model matrix is a token;
  - bounds are integer boxes;
  - frustum visibility is a parameter.
- `RenderQueues.BatchDrawCalls` groups calls by (material, geometry). It leaves out std::hash collisions, which the source would treat as the same key.
- `RenderQueues.RenderQueue.Prepare` takes the engine-wide culling flags as parameters.
- `GraphicsBuffers.GraphicsBuffer.SetData` chooses the backend buffer by frame index. GetBackendBuffer's frame counter is a parameter.
- Freshly created backend buffers are modelled as zero-filled; the real contents are unspecified.
- `RingBuffers.AlignSize` does not model uint64 overflow of `size + alignment`.
- `RingBuffers.RingBuffer.constructor` builds its buffer single-buffered, the assumed default of the two-argument GraphicsBuffer constructor, which no file in this model declares.
- Kerning amounts keep their 16 bits. Counts are reduced mod 2^32 as the source's u32 fields do.
- `UITextFields`: shaping the text to place the cursor image is not modelled. UIElement::Update is not part of this model.
- `UIMasks.UIMask.Create`: `ui_element.cpp` and `ui_mask_stencil.cpp` are not part of this model. Creating a stencil with the mask as its parent is taken to add it to the mask's children through AddChild, so the children start as the opening then the closing stencil. The stencil objects themselves are ids.
- `DebugLog.Debug.Log`: a listener that registers or removes listeners while being notified is not modelled. The Android log branch is not modelled.
- `Lights.Create`: the member defaults from `light.h` are a parameter. Light colour and the component base class are not part of this model.
- `WindowsIdPools.WindowsIdPool.ReturnID`: an id returned for a type never asked for is pooled as the source does, but it is not tracked as "in use".
- `TextureCompressorFormats`: the concrete table entries are data and are not checked for distinctness. Lemmas about them hold for any table without repeated formats.
- `Profilers`:
  - the clock is a parameter in microseconds;
  - the separator's frame field is 0;
  - the GPUQueue enum is not part of this model, so each result carries whether it came from the copy queue;
  - backend marker creation and resolution are parameters;
  - depth counters are unbounded ints, so int overflow is not modelled.
- `OpenGLRenderTargets`:
  - the FramebufferAttachment enum header is not part of this model. Its order is taken from the switch at graphics_backend/helpers/opengl_helpers.cpp:650-689: COLOR_ATTACHMENT0..15, DEPTH, STENCIL and DEPTH_STENCIL are 0..18, and MAX is 19;
  - glDepthMask, glBindFramebuffer and the framebuffer objects are not modelled;
  - BeginRenderPass returns what it would bind and clear.
- `AndroidLaunchers`:
  - views, the native keyboard, window insets and the JNI bridge are not modelled;
  - the asset manager is an opaque handle;
  - pointer coordinates are reals.

## Findings

| source | as written | input that shows it | evidently intended | confidence | as-written member | corrected member |
|---|---|---|---|---|---|---|
| font_compiler/font_compiler.cpp:57 | `offset += strlen(pageName)` stops on the terminator of the name just read | a pages block "a\0b\0" with two pages reads names "a" and "" | advance past the terminator (`strlen + 1`) | high, not executed | FontCompiler.PageNamesCounterexample | FontCompiler.PageNames |
| font_compiler/font_compiler.cpp:159 | `offset += blockSize` in 32-bit unsigned arithmetic can wrap backwards | "BMF" 3, then an info block of size 0xFFFFFFFB: the offset returns to 4 and the loop never ends | the offset only moves forward, so parsing ends | medium, not executed | FontCompiler.BlockOffsetCounterexample | FontCompiler.NextOffset |
| font_compiler/font_compiler.cpp:185 | `pageImages[0]` is read whatever the number of pages | the file "BMF" 3 with no blocks: no page names, no images, and the first image is read from an empty vector | reject a font without pages before taking the first page's format | medium, not executed | FontCompiler.NoPagesCounterexample | FontCompiler.CompileFailures |
| core/graphics_buffer/graphics_buffer.cpp:47 | Resize copies the old size into the new buffer even when it shrinks | resizing a 16-byte buffer to 8 bytes copies 16 bytes into 8 | copy the smaller of the old and new sizes | high, not executed | GraphicsBuffers.ShrinkCopyOverflows | GraphicsBuffers.CopyLength |
| core/ui/ui_text_field.cpp:22-25 | SetText replaces the text without clamping the cursor | type "abcd" (cursor 4), then SetText(""): the cursor is past the end | keep the cursor inside the new text | medium, not executed | UITextFields.SetTextLeavesCursorOutside | UITextFields.SetText |
