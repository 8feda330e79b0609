/**
 * The tables the texture compressor offers its user
 * (texture_compressor/texture_compressor_formats.cpp): texture types with
 * their slice counts, and texture formats with their display names, each
 * searched front to back for the first matching entry.
 */
module TextureCompressorFormats {
  import opened Sequences

  /** The texture formats, named as in graphics_backend/enums/texture_internal_format.h. */
  datatype TextureInternalFormat =
    | RED
    | RG
    | RGB
    | RGBA
    | SRGB
    | SRGB_ALPHA
    | COMPRESSED_RGB
    | COMPRESSED_RGBA
    | COMPRESSED_SRGB
    | COMPRESSED_SRGB_ALPHA
    | COMPRESSED_RED
    | COMPRESSED_RG
    | R8
    | R8_SNORM
    | R16
    | R16_SNORM
    | RG8
    | RG8_SNORM
    | RG16
    | RG16_SNORM
    | R3_G3_B2
    | RGB4
    | RGB5
    | RGB8
    | RGB8_SNORM
    | RGB10
    | RGB12
    | RGB16
    | RGBA2
    | RGBA4
    | RGB5_A1
    | RGBA8
    | RGBA8_SNORM
    | RGB10_A2
    | RGB10_A2UI
    | RGBA12
    | RGBA16
    | SRGB8
    | SRGB8_ALPHA8
    | R16F
    | RG16F
    | RGB16F
    | RGBA16F
    | R32F
    | RG32F
    | RGB32F
    | RGBA32F
    | R11F_G11F_B10F
    | RGB9_E5
    | R8I
    | R8UI
    | R16I
    | R16UI
    | R32I
    | R32UI
    | RG8I
    | RG8UI
    | RG16I
    | RG16UI
    | RG32I
    | RG32UI
    | RGB8I
    | RGB8UI
    | RGB16I
    | RGB16UI
    | RGB32I
    | RGB32UI
    | RGBA8I
    | RGBA8UI
    | RGBA16I
    | RGBA16UI
    | RGBA32I
    | RGBA32UI
    | COMPRESSED_RGB_S3TC_DXT1_EXT
    | COMPRESSED_RGBA_S3TC_DXT1_EXT
    | COMPRESSED_RGBA_S3TC_DXT3_EXT
    | COMPRESSED_RGBA_S3TC_DXT5_EXT
    | COMPRESSED_SRGB_S3TC_DXT1_EXT
    | COMPRESSED_SRGB_ALPHA_S3TC_DXT1_EXT
    | COMPRESSED_SRGB_ALPHA_S3TC_DXT3_EXT
    | COMPRESSED_SRGB_ALPHA_S3TC_DXT5_EXT
    | COMPRESSED_RED_RGTC1
    | COMPRESSED_SIGNED_RED_RGTC1
    | COMPRESSED_RG_RGTC2
    | COMPRESSED_SIGNED_RG_RGTC2
    | DEPTH_COMPONENT
    | DEPTH_STENCIL

  /**
   * The texture types of graphics_backend/enums/texture_type.h, and the zero
   * value a value-initialised TextureType holds, which names no type.
   */
  datatype TextureType =
    | TEXTURE_1D | TEXTURE_1D_ARRAY
    | TEXTURE_2D | TEXTURE_2D_MULTISAMPLE | TEXTURE_2D_ARRAY | TEXTURE_2D_MULTISAMPLE_ARRAY
    | TEXTURE_3D
    | TEXTURE_CUBEMAP | TEXTURE_CUBEMAP_ARRAY
    | TEXTURE_RECTANGLE | TEXTURE_BUFFER
    | NoTextureType

  datatype TextureTypeInfo = TextureTypeInfo(name: string, textureType: TextureType, count: int)

  /** textureTypesInfo (lines 9-13). */
  const TextureTypesInfo: seq<TextureTypeInfo> :=
    [TextureTypeInfo("Texture 2D", TEXTURE_2D, 1), TextureTypeInfo("Cubemap", TEXTURE_CUBEMAP, 6)]

  /** The entry returned for a type with no row (line 132): only its count is set. */
  const InvalidTypeInfo: TextureTypeInfo := TextureTypeInfo("", NoTextureType, -1)

  /** textureFormats (lines 23-115). */
  const TextureFormats: seq<(TextureInternalFormat, string)> := [
      (RED, "Red"),
      (RG, "RG"),
      (RGB, "RGB"),
      (RGBA, "RGBA"),
      (SRGB, "sRGB"),
      (SRGB_ALPHA, "sRGBA"),
      (COMPRESSED_RGB, "Compressed RGB"),
      (COMPRESSED_RGBA, "Compressed RGBA"),
      (COMPRESSED_SRGB, "Compressed sRGB"),
      (COMPRESSED_SRGB_ALPHA, "Compressed sRGBA"),
      (COMPRESSED_RED, "Compressed Red"),
      (COMPRESSED_RG, "Compressed RG"),
      (R8, "R8"),
      (R8_SNORM, "R8 SNORM"),
      (R16, "R16"),
      (R16_SNORM, "R16 SNORM"),
      (RG8, "RG8"),
      (RG8_SNORM, "RG8 SNORM"),
      (RG16, "RG16"),
      (RG16_SNORM, "RG16 SNORM"),
      (R3_G3_B2, "R3 G3 B2"),
      (RGB4, "RGB4"),
      (RGB5, "RGB5"),
      (RGB8, "RGB8"),
      (RGB8_SNORM, "RGB8 SNORM"),
      (RGB10, "RGB10"),
      (RGB12, "RGB12"),
      (RGB16, "RGB16"),
      (RGBA2, "RGBA2"),
      (RGBA4, "RGBA4"),
      (RGB5_A1, "RGB5 A1"),
      (RGBA8, "RGBA8"),
      (RGBA8_SNORM, "RGBA8_SNORM"),
      (RGB10_A2, "RGB10 A2"),
      (RGB10_A2UI, "RGB10 A2UI"),
      (RGBA12, "RGBA12"),
      (RGBA16, "RGBA16"),
      (SRGB8, "SRGB8"),
      (SRGB8_ALPHA8, "SRGB8 ALPHA8"),
      (R16F, "R16F"),
      (RG16F, "RG16F"),
      (RGB16F, "RGB16F"),
      (RGBA16F, "RGBA16F"),
      (R32F, "R32F"),
      (RG32F, "RG32F"),
      (RGB32F, "RGB32F"),
      (RGBA32F, "RGBA32F"),
      (R11F_G11F_B10F, "R11F G11F B10F"),
      (RGB9_E5, "RGB9_E5"),
      (R8I, "R8I"),
      (R8UI, "R8UI"),
      (R16I, "R16I"),
      (R16UI, "R16UI"),
      (R32I, "R32I"),
      (R32UI, "R32UI"),
      (RG8I, "RG8I"),
      (RG8UI, "RG8UI"),
      (RG16I, "RG16I"),
      (RG16UI, "RG16UI"),
      (RG32I, "RG32I"),
      (RG32UI, "RG32UI"),
      (RGB8I, "RGB8I"),
      (RGB8UI, "RGB8UI"),
      (RGB16I, "RGB16I"),
      (RGB16UI, "RGB16UI"),
      (RGB32I, "RGB32I"),
      (RGB32UI, "RGB32UI"),
      (RGBA8I, "RGBA8I"),
      (RGBA8UI, "RGBA8UI"),
      (RGBA16I, "RGBA16I"),
      (RGBA16UI, "RGBA16UI"),
      (RGBA32I, "RGBA32I"),
      (RGBA32UI, "RGBA32UI"),
      (COMPRESSED_RGB_S3TC_DXT1_EXT, "RGB S3TC DXT1"),
      (COMPRESSED_RGBA_S3TC_DXT1_EXT, "RGBA S3TC DXT1"),
      (COMPRESSED_RGBA_S3TC_DXT3_EXT, "RGBA S3TC DXT3"),
      (COMPRESSED_RGBA_S3TC_DXT5_EXT, "RGBA S3TC DXT5"),
      (COMPRESSED_SRGB_S3TC_DXT1_EXT, "SRGB S3TC DXT1"),
      (COMPRESSED_SRGB_ALPHA_S3TC_DXT1_EXT, "sRGBA S3TC DXT1"),
      (COMPRESSED_SRGB_ALPHA_S3TC_DXT3_EXT, "sRGBA S3TC DXT3"),
      (COMPRESSED_SRGB_ALPHA_S3TC_DXT5_EXT, "sRGBA S3TC DXT5"),
      (COMPRESSED_RED_RGTC1, "RED RGTC1"),
      (COMPRESSED_SIGNED_RED_RGTC1, "SIGNED RED RGTC1"),
      (COMPRESSED_RG_RGTC2, "RG RGTC2"),
      (COMPRESSED_SIGNED_RG_RGTC2, "SIGNED RG RGTC2")
    ]

  /** The name of the first row of `table` for the format, or "Unknown" when none has it. */
  function NameIn(table: seq<(TextureInternalFormat, string)>, format: TextureInternalFormat): (r: string)
    ensures (exists k :: 0 <= k < |table| && table[k].0 == format) ==>
      exists k :: 0 <= k < |table| && table[k] == (format, r) && forall j :: 0 <= j < k ==> table[j].0 != format
    ensures (forall k :: 0 <= k < |table| ==> table[k].0 != format) ==> r == "Unknown"
  {
    var i := FirstIndex(table, (p: (TextureInternalFormat, string)) => p.0 == format);
    if i < 0 then "Unknown" else table[i].1
  }

  /** Looks a format up in a name table, front to back. */
  method LookUpName(table: seq<(TextureInternalFormat, string)>, format: TextureInternalFormat) returns (name: string)
    ensures name == NameIn(table, format)
  {
    var i := FindFirst(table, (p: (TextureInternalFormat, string)) => p.0 == format);
    if i < 0 {
      return "Unknown";
    }
    return table[i].1;
  }

  /** GetTextureFormatName (lines 117-128): the search over textureFormats. */
  method GetTextureFormatName(format: TextureInternalFormat) returns (name: string)
    ensures name == NameIn(TextureFormats, format)
  {
    name := LookUpName(TextureFormats, format);
  }

  /** In a table without repeated formats, every row's format gets that row's name. */
  lemma {:induction false} DistinctRowsNamed(table: seq<(TextureInternalFormat, string)>, k: nat)
    requires forall i, j :: 0 <= i < j < |table| ==> table[i].0 != table[j].0
    requires k < |table|
    ensures NameIn(table, table[k].0) == table[k].1
  {
    var f := table[k].0;
    assert exists i :: 0 <= i < |table| && table[i].0 == f;
  }

  /** The entry GetTextureTypeInfo returns for a type. */
  function TypeInfo(textureType: TextureType): (r: TextureTypeInfo)
  {
    var i := FirstIndex(TextureTypesInfo, (info: TextureTypeInfo) => info.textureType == textureType);
    if i < 0 then InvalidTypeInfo else TextureTypesInfo[i]
  }

  /** GetTextureTypeInfo (lines 130-143). */
  method GetTextureTypeInfo(textureType: TextureType) returns (info: TextureTypeInfo)
    ensures info == TypeInfo(textureType)
    ensures info.count >= 0 ==> info.textureType == textureType
  {
    var i := FindFirst(TextureTypesInfo, (info: TextureTypeInfo) => info.textureType == textureType);
    if i < 0 {
      return InvalidTypeInfo;
    }
    return TextureTypesInfo[i];
  }

  /** A 2D texture has one slice, a cubemap six; every other type gets count -1. */
  lemma TypeInfoCounts(textureType: TextureType)
    ensures TypeInfo(TEXTURE_2D) == TextureTypeInfo("Texture 2D", TEXTURE_2D, 1)
    ensures TypeInfo(TEXTURE_CUBEMAP) == TextureTypeInfo("Cubemap", TEXTURE_CUBEMAP, 6)
    ensures textureType != TEXTURE_2D && textureType != TEXTURE_CUBEMAP ==> TypeInfo(textureType).count == -1
  {
  }
}
