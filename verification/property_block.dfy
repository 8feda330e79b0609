/**
 * A property block (core/property_block): named shader properties of four
 * kinds, each kind in its own map. Floats are reals here; a texture is a
 * handle, and an absent texture pointer is None.
 */
module PropertyBlocks {
  import opened Wrappers

  datatype Vector4 = Vector4(x: real, y: real, z: real, w: real)

  /** A 4x4 matrix, row by row. */
  datatype Matrix4x4 = Matrix4x4(entries: seq<real>)

  function ZeroVector(): Vector4 { Vector4(0.0, 0.0, 0.0, 0.0) }

  function ZeroMatrix(): (r: Matrix4x4)
    ensures |r.entries| == 16 && forall i :: 0 <= i < 16 ==> r.entries[i] == 0.0
  {
    Matrix4x4(seq(16, _ => 0.0))
  }

  /** A map lookup falling back to a default for an absent name. */
  function Lookup<V>(m: map<string, V>, name: string, default: V): (r: V)
    ensures name in m ==> r == m[name]
    ensures name !in m ==> r == default
  {
    if name in m then m[name] else default
  }

  /** After a set, the name reads back the value set, whatever was there before. */
  lemma SetThenGet<V>(m: map<string, V>, name: string, value: V, default: V)
    ensures Lookup(m[name := value], name, default) == value
  {
  }

  /** A set leaves every other name as it was. */
  lemma SetKeepsOthers<V>(m: map<string, V>, name: string, value: V, other: string, default: V)
    requires other != name
    ensures Lookup(m[name := value], other, default) == Lookup(m, other, default)
  {
  }

  /** Of two sets of one name, the later one wins. */
  lemma LaterSetWins<V>(m: map<string, V>, name: string, first: V, second: V)
    ensures m[name := first][name := second] == m[name := second]
  {
  }

  class PropertyBlock {
    var textures: map<string, Option<nat>>
    var vectors: map<string, Vector4>
    var floats: map<string, real>
    var matrices: map<string, Matrix4x4>

    constructor()
      ensures textures == map[] && vectors == map[] && floats == map[] && matrices == map[]
    {
      textures := map[];
      vectors := map[];
      floats := map[];
      matrices := map[];
    }

    /** SetTexture (lines 6-9); a null texture is stored like any other. */
    method SetTexture(name: string, value: Option<nat>)
      modifies this
      ensures textures == old(textures)[name := value]
      ensures vectors == old(vectors) && floats == old(floats) && matrices == old(matrices)
    {
      textures := textures[name := value];
    }

    /** GetTexture (lines 11-14): an absent name gives the null pointer. */
    function GetTexture(name: string): (r: Option<nat>)
      reads this
      ensures name !in textures ==> r == None
      ensures name in textures ==> r == textures[name]
    {
      Lookup(textures, name, None)
    }

    /** SetVector (lines 17-20). */
    method SetVector(name: string, value: Vector4)
      modifies this
      ensures vectors == old(vectors)[name := value]
      ensures textures == old(textures) && floats == old(floats) && matrices == old(matrices)
    {
      vectors := vectors[name := value];
    }

    /** GetVector (lines 22-25): an absent name gives the zero vector. */
    function GetVector(name: string): (r: Vector4)
      reads this
      ensures name !in vectors ==> r == ZeroVector()
      ensures name in vectors ==> r == vectors[name]
    {
      Lookup(vectors, name, ZeroVector())
    }

    /** SetFloat (lines 28-31). */
    method SetFloat(name: string, value: real)
      modifies this
      ensures floats == old(floats)[name := value]
      ensures textures == old(textures) && vectors == old(vectors) && matrices == old(matrices)
    {
      floats := floats[name := value];
    }

    /** GetFloat (lines 33-36): an absent name gives 0. */
    function GetFloat(name: string): (r: real)
      reads this
      ensures name !in floats ==> r == 0.0
      ensures name in floats ==> r == floats[name]
    {
      Lookup(floats, name, 0.0)
    }

    /** SetMatrix (lines 39-42). */
    method SetMatrix(name: string, value: Matrix4x4)
      modifies this
      ensures matrices == old(matrices)[name := value]
      ensures textures == old(textures) && vectors == old(vectors) && floats == old(floats)
    {
      matrices := matrices[name := value];
    }

    /** GetMatrix (lines 44-47): an absent name gives the zero matrix. */
    function GetMatrix(name: string): (r: Matrix4x4)
      reads this
      ensures name !in matrices ==> r == ZeroMatrix()
      ensures name in matrices ==> r == matrices[name]
    {
      Lookup(matrices, name, ZeroMatrix())
    }
  }
}
