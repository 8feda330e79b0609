/** The shader compiler's backend names (shader_compiler/graphics_backend.h). */
module GraphicsBackend {
  /** The enum's underlying int; OPENGL = 0, GLES = 1, METAL = 2. */
  const OPENGL: int := 0
  const GLES: int := 1
  const METAL: int := 2
  const BACKEND_MAX: int := 3

  predicate IsValid(backend: int)
  {
    0 <= backend < BACKEND_MAX
  }

  /** GetBackendLiteral (lines 15-28). */
  function GetBackendLiteral(backend: int): (r: string)
    ensures r == "" <==> !IsValid(backend)
  {
    if backend == OPENGL then "opengl"
    else if backend == GLES then "gles"
    else if backend == METAL then "metal"
    else ""
  }

  /** GetBackendDefine (lines 30-43). */
  function GetBackendDefine(backend: int): (r: string)
    ensures r == "" <==> !IsValid(backend)
  {
    if backend == OPENGL then "OPENGL_SHADER"
    else if backend == GLES then "GLES_SHADER"
    else if backend == METAL then "METAL_SHADER"
    else ""
  }

  /** Different backends have different literals. */
  lemma LiteralsDistinct(a: int, b: int)
    requires IsValid(a) && IsValid(b) && a != b
    ensures GetBackendLiteral(a) != GetBackendLiteral(b)
  {
  }

  /** Different backends have different defines. */
  lemma DefinesDistinct(a: int, b: int)
    requires IsValid(a) && IsValid(b) && a != b
    ensures GetBackendDefine(a) != GetBackendDefine(b)
  {
  }

  /**
   * TryGetBackend (lines 45-58): `outBackend` is passed in and comes back
   * unchanged when no literal matches.
   */
  method TryGetBackend(backendString: string, outBackend: int) returns (found: bool, backend: int)
    ensures found <==> exists b :: IsValid(b) && GetBackendLiteral(b) == backendString
    ensures found ==> IsValid(backend) && GetBackendLiteral(backend) == backendString
    ensures !found ==> backend == outBackend
  {
    backend := outBackend;
    var i := 0;
    while i < BACKEND_MAX
      invariant 0 <= i <= BACKEND_MAX
      invariant forall b :: 0 <= b < i ==> GetBackendLiteral(b) != backendString
    {
      if backendString == GetBackendLiteral(i) {
        backend := i;
        return true, backend;
      }
      i := i + 1;
    }
    return false, backend;
  }

  /** Looking up a backend's own literal finds that backend. */
  method LiteralLookup(b: int, outBackend: int) returns (found: bool, backend: int)
    requires IsValid(b)
    ensures found && backend == b
  {
    found, backend := TryGetBackend(GetBackendLiteral(b), outBackend);
    if backend != b {
      LiteralsDistinct(b, backend);
    }
  }
}
