/**
 * Shader uniform types and their conversion from OpenGL type codes
 * (core/shader/uniform_type/uniform_type.cpp). The codes are the values
 * the OpenGL 4.6 specification assigns to these enumerants.
 */
module UniformTypes {
  datatype UniformType =
    | Int | Float | FloatVec2 | FloatVec3 | FloatVec4 | FloatMat4 | Bool
    | Sampler2D | Sampler2DArray | SamplerCube | Unknown

  const GL_INT: nat := 0x1404
  const GL_FLOAT: nat := 0x1406
  const GL_FLOAT_VEC2: nat := 0x8B50
  const GL_FLOAT_VEC3: nat := 0x8B51
  const GL_FLOAT_VEC4: nat := 0x8B52
  const GL_BOOL: nat := 0x8B56
  const GL_FLOAT_MAT4: nat := 0x8B5C
  const GL_SAMPLER_2D: nat := 0x8B5E
  const GL_SAMPLER_CUBE: nat := 0x8B60
  const GL_SAMPLER_2D_ARRAY: nat := 0x8DC1

  /** The GL codes ConvertUniformType recognises. */
  const KnownCodes: seq<nat> := [GL_INT, GL_FLOAT, GL_FLOAT_VEC2, GL_FLOAT_VEC3, GL_FLOAT_VEC4,
                                 GL_FLOAT_MAT4, GL_BOOL, GL_SAMPLER_2D, GL_SAMPLER_2D_ARRAY, GL_SAMPLER_CUBE]

  /** IsTexture (lines 5-10). */
  function IsTexture(t: UniformType): (r: bool)
    ensures r <==> t in {Sampler2D, Sampler2DArray, SamplerCube}
  {
    t == Sampler2D || t == Sampler2DArray || t == SamplerCube
  }

  /** ConvertUniformType (lines 12-43). */
  function ConvertUniformType(code: nat): (r: UniformType)
    ensures r == Unknown <==> code !in KnownCodes
  {
    if code == GL_INT then Int
    else if code == GL_FLOAT then Float
    else if code == GL_FLOAT_VEC2 then FloatVec2
    else if code == GL_FLOAT_VEC3 then FloatVec3
    else if code == GL_FLOAT_VEC4 then FloatVec4
    else if code == GL_FLOAT_MAT4 then FloatMat4
    else if code == GL_BOOL then Bool
    else if code == GL_SAMPLER_2D then Sampler2D
    else if code == GL_SAMPLER_2D_ARRAY then Sampler2DArray
    else if code == GL_SAMPLER_CUBE then SamplerCube
    else Unknown
  }

  /** The GL code a uniform type comes from; Unknown has none. */
  function GLCode(t: UniformType): nat
    requires t != Unknown
  {
    match t
    case Int => GL_INT
    case Float => GL_FLOAT
    case FloatVec2 => GL_FLOAT_VEC2
    case FloatVec3 => GL_FLOAT_VEC3
    case FloatVec4 => GL_FLOAT_VEC4
    case FloatMat4 => GL_FLOAT_MAT4
    case Bool => GL_BOOL
    case Sampler2D => GL_SAMPLER_2D
    case Sampler2DArray => GL_SAMPLER_2D_ARRAY
    case SamplerCube => GL_SAMPLER_CUBE
  }

  /** Every known type is produced from exactly one GL code. */
  lemma ConvertRoundTrip(t: UniformType, code: nat)
    requires t != Unknown
    ensures ConvertUniformType(GLCode(t)) == t
    ensures ConvertUniformType(code) == t ==> code == GLCode(t)
  {
  }

  /** Distinct recognised codes give distinct types. */
  lemma ConvertInjective(a: nat, b: nat)
    requires a in KnownCodes && b in KnownCodes && a != b
    ensures ConvertUniformType(a) != ConvertUniformType(b)
  {
  }

  /** A converted type is a texture exactly when the code is one of the three sampler codes. */
  lemma TextureCodes(code: nat)
    ensures IsTexture(ConvertUniformType(code)) <==> code in {GL_SAMPLER_2D, GL_SAMPLER_2D_ARRAY, GL_SAMPLER_CUBE}
  {
  }
}
