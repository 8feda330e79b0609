/**
 * What the render queue works on: renderers' draw calls, and the filters
 * a render pass selects them with
 * (core/graphics/render_settings/draw_call_filter.cpp).
 * Matrices and bounds are float data in the engine; here a matrix is a
 * token compared only for identity and bounds are integer boxes.
 */
module DrawCalls {
  import opened Wrappers

  datatype Matrix = Matrix(entries: seq<int>)

  datatype Bounds = Bounds(minX: int, minY: int, minZ: int, maxX: int, maxY: int, maxZ: int)

  predicate ContainsBox(outer: Bounds, inner: Bounds)
  {
    outer.minX <= inner.minX && outer.minY <= inner.minY && outer.minZ <= inner.minZ
    && inner.maxX <= outer.maxX && inner.maxY <= outer.maxY && inner.maxZ <= outer.maxZ
  }

  function Min(a: int, b: int): int { if a < b then a else b }
  function Max(a: int, b: int): int { if a < b then b else a }

  /** The smallest box holding both boxes (Bounds::Combine). */
  function Combine(a: Bounds, b: Bounds): (r: Bounds)
    ensures ContainsBox(r, a) && ContainsBox(r, b)
    ensures forall c :: ContainsBox(c, a) && ContainsBox(c, b) ==> ContainsBox(c, r)
  {
    Bounds(Min(a.minX, b.minX), Min(a.minY, b.minY), Min(a.minZ, b.minZ),
           Max(a.maxX, b.maxX), Max(a.maxY, b.maxY), Max(a.maxZ, b.maxZ))
  }

  /** A material: its identity, its render queue and whether its shader supports instancing. */
  datatype Material = Material(id: nat, renderQueue: int, supportsInstancing: bool)

  datatype DrawCall = DrawCall(
    geometry: nat,
    material: Material,
    matrices: seq<Matrix>,
    aabb: Bounds,
    castShadows: bool,
    instanced: bool)

  /** Render queues from this value on are transparent (line 4). */
  const TRANSPARENT_RENDER_QUEUE: int := 3000

  /** The four predicates the filter factories install. */
  datatype Delegate = OpaqueDelegate | TransparentDelegate | AllDelegate | ShadowCastersDelegate

  /** A filter; its delegate may be empty. */
  datatype DrawCallFilter = DrawCallFilter(delegate: Option<Delegate>)

  function Opaque(): DrawCallFilter { DrawCallFilter(Some(OpaqueDelegate)) }
  function Transparent(): DrawCallFilter { DrawCallFilter(Some(TransparentDelegate)) }
  function All(): DrawCallFilter { DrawCallFilter(Some(AllDelegate)) }
  function ShadowCasters(): DrawCallFilter { DrawCallFilter(Some(ShadowCastersDelegate)) }

  function Holds(d: Delegate, c: DrawCall): bool
  {
    match d
    case OpaqueDelegate => c.material.renderQueue < TRANSPARENT_RENDER_QUEUE
    case TransparentDelegate => c.material.renderQueue >= TRANSPARENT_RENDER_QUEUE
    case AllDelegate => true
    case ShadowCastersDelegate => c.castShadows
  }

  /** operator() (lines 26-29): a filter without a delegate rejects the call. */
  function Passes(f: DrawCallFilter, c: DrawCall): (r: bool)
    ensures f.delegate.None? ==> !r
    ensures f.delegate.Some? ==> (r <==> Holds(f.delegate.value, c))
  {
    f.delegate.Some? && Holds(f.delegate.value, c)
  }

  /** Opaque and Transparent split the calls by render queue: each call passes exactly one of them. */
  lemma OpaqueTransparentPartition(c: DrawCall)
    ensures Passes(Opaque(), c) <==> c.material.renderQueue < 3000
    ensures Passes(Transparent(), c) <==> c.material.renderQueue >= 3000
    ensures Passes(Opaque(), c) != Passes(Transparent(), c)
  {
  }

  /** All lets every call through; ShadowCasters exactly the shadow casters. */
  lemma AllAndShadowCasters(c: DrawCall)
    ensures Passes(All(), c)
    ensures Passes(ShadowCasters(), c) <==> c.castShadows
  {
  }

  /** A filter built without a delegate rejects every call. */
  lemma NullFilterRejects(c: DrawCall)
    ensures !Passes(DrawCallFilter(None), c)
  {
  }
}
