/**
 * The render queue (core/graphics/render_queue/render_queue.cpp): it turns
 * the scene's renderers into draw calls, drops the ones the pass's filter
 * rejects, merges instanceable calls that share material and geometry, and
 * sorts the rest.
 */
module RenderQueues {
  import opened Wrappers
  import opened DrawCalls
  import opened Sequences

  /** GlobalConstants::MaxInstancingCount. */
  const MAX_INSTANCING_COUNT: nat := 256

  /** A renderer as the queue sees it; the geometry and the material may be missing. */
  datatype Renderer = Renderer(
    geometry: Option<nat>,
    material: Option<Material>,
    modelMatrix: Matrix,
    aabb: Bounds,
    castShadows: bool)

  datatype SortMode = NoSorting | FrontToBack | BackToFront

  datatype RenderSettings = RenderSettings(
    overrideMaterial: Option<Material>,
    cullingPlanesBits: nat,
    filter: DrawCallFilter,
    sorting: SortMode)

  /** The frustum built from a view-projection matrix. */
  datatype Frustum = Frustum(viewProjection: Matrix)

  /** Frustum::IsVisible for a box and a set of plane bits. */
  type Visibility = (Frustum, Bounds, nat) -> bool

  // ---------------------------------------------------------------- setup

  /** The material a renderer draws with: the override when one is set. */
  function DrawMaterial(r: Renderer, settings: RenderSettings): Option<Material>
  {
    if settings.overrideMaterial.Some? then settings.overrideMaterial else r.material
  }

  /** The draw call one renderer contributes (lines 27-46), if any. */
  function SetupCall(r: Option<Renderer>, settings: RenderSettings, frustum: Frustum, culling: bool, isVisible: Visibility): (c: Option<DrawCall>)
    ensures c.Some? <==>
      r.Some? && r.value.geometry.Some? && DrawMaterial(r.value, settings).Some?
      && (culling ==> isVisible(frustum, r.value.aabb, settings.cullingPlanesBits))
    ensures c.Some? ==>
      c.value.geometry == r.value.geometry.value
      && c.value.material == (if settings.overrideMaterial.Some? then settings.overrideMaterial.value else r.value.material.value)
      && c.value.matrices == [r.value.modelMatrix] && !c.value.instanced
      && c.value.aabb == r.value.aabb && c.value.castShadows == r.value.castShadows
  {
    if r.None? then None
    else
      var m := DrawMaterial(r.value, settings);
      if r.value.geometry.None? || m.None? then None
      else if culling && !isVisible(frustum, r.value.aabb, settings.cullingPlanesBits) then None
      else Some(DrawCall(r.value.geometry.value, m.value, [r.value.modelMatrix], r.value.aabb, r.value.castShadows, false))
  }

  function AsSeq(c: Option<DrawCall>): seq<DrawCall>
  {
    if c.Some? then [c.value] else []
  }

  /** The draw calls of SetupDrawCalls, in renderer order. */
  function Setup(renderers: seq<Option<Renderer>>, settings: RenderSettings, frustum: Frustum, culling: bool, isVisible: Visibility): (r: seq<DrawCall>)
    ensures |r| <= |renderers|
    ensures forall c :: c in r ==> |c.matrices| == 1 && !c.instanced
  {
    if |renderers| == 0 then []
    else
      Setup(renderers[..|renderers| - 1], settings, frustum, culling, isVisible)
      + AsSeq(SetupCall(renderers[|renderers| - 1], settings, frustum, culling, isVisible))
  }

  /** Every draw call comes from one of the renderers. */
  lemma {:induction false} SetupFromRenderers(renderers: seq<Option<Renderer>>, settings: RenderSettings, frustum: Frustum, culling: bool, isVisible: Visibility, c: DrawCall)
    requires c in Setup(renderers, settings, frustum, culling, isVisible)
    ensures exists k :: 0 <= k < |renderers| && SetupCall(renderers[k], settings, frustum, culling, isVisible) == Some(c)
  {
    var n := |renderers|;
    var last := SetupCall(renderers[n - 1], settings, frustum, culling, isVisible);
    if c in AsSeq(last) {
      assert SetupCall(renderers[n - 1], settings, frustum, culling, isVisible) == Some(c);
    } else {
      SetupFromRenderers(renderers[..n - 1], settings, frustum, culling, isVisible, c);
      var k :| 0 <= k < n - 1 && SetupCall(renderers[..n - 1][k], settings, frustum, culling, isVisible) == Some(c);
      assert renderers[..n - 1][k] == renderers[k];
    }
  }

  /** SetupDrawCalls (lines 21-50). */
  method SetupDrawCalls(renderers: seq<Option<Renderer>>, settings: RenderSettings, frustum: Frustum, culling: bool, isVisible: Visibility)
    returns (out: seq<DrawCall>)
    ensures out == Setup(renderers, settings, frustum, culling, isVisible)
  {
    out := [];
    var i := 0;
    while i < |renderers|
      invariant 0 <= i <= |renderers|
      invariant out == Setup(renderers[..i], settings, frustum, culling, isVisible)
    {
      assert renderers[..i + 1][..i] == renderers[..i];
      var call := SetupCall(renderers[i], settings, frustum, culling, isVisible);
      if call.Some? {
        out := out + [call.value];
      }
      i := i + 1;
    }
    assert renderers[..i] == renderers;
  }

  // ---------------------------------------------------------------- filter

  /** The calls that pass the filter, in their order. */
  function Passing(s: seq<DrawCall>, f: DrawCallFilter): (r: seq<DrawCall>)
    ensures |r| <= |s|
    ensures forall c :: c in r ==> c in s && Passes(f, c)
  {
    if |s| == 0 then []
    else Passing(s[..|s| - 1], f) + (if Passes(f, s[|s| - 1]) then [s[|s| - 1]] else [])
  }

  /** How often a call occurs among the passing ones. */
  lemma {:induction false} PassingCount(s: seq<DrawCall>, f: DrawCallFilter, x: DrawCall)
    ensures multiset(Passing(s, f))[x] == if Passes(f, x) then multiset(s)[x] else 0
  {
    if |s| > 0 {
      var n := |s|;
      PassingCount(s[..n - 1], f, x);
      assert s == s[..n - 1] + [s[n - 1]];
    }
  }

  /** Calls [0, i) passed; the passing calls are all still there. */
  ghost predicate FilterInv(calls: seq<DrawCall>, f: DrawCallFilter, cur: seq<DrawCall>, i: nat)
  {
    i <= |cur|
    && (forall j :: 0 <= j < i ==> Passes(f, cur[j]))
    && (forall x :: Passes(f, x) ==> multiset(cur)[x] == multiset(calls)[x])
  }

  lemma FilterRemoveStep(calls: seq<DrawCall>, f: DrawCallFilter, cur: seq<DrawCall>, i: nat)
    requires FilterInv(calls, f, cur, i) && i < |cur| && !Passes(f, cur[i])
    ensures FilterInv(calls, f, SwapRemove(cur, i), i)
  {
    var r := SwapRemove(cur, i);
    forall x | Passes(f, x)
      ensures multiset(r)[x] == multiset(calls)[x]
    {
      assert x != cur[i];
    }
  }

  lemma FilterDone(calls: seq<DrawCall>, f: DrawCallFilter, cur: seq<DrawCall>)
    requires FilterInv(calls, f, cur, |cur|)
    ensures multiset(cur) == multiset(Passing(calls, f))
  {
    forall x
      ensures multiset(cur)[x] == multiset(Passing(calls, f))[x]
    {
      PassingCount(calls, f, x);
      if !Passes(f, x) {
        assert x !in cur;
      }
    }
  }

  /**
   * FilterDrawCalls (lines 52-64): a rejected call is overwritten by the
   * last one and the list shrinks, so the order is not kept; what remains
   * is exactly the multiset of passing calls.
   */
  method FilterDrawCalls(f: DrawCallFilter, calls: seq<DrawCall>) returns (out: seq<DrawCall>)
    ensures multiset(out) == multiset(Passing(calls, f))
    ensures forall c :: c in out ==> Passes(f, c)
  {
    out := calls;
    var i: nat := 0;
    while i < |out|
      invariant FilterInv(calls, f, out, i)
      decreases |out| - i
    {
      if !Passes(f, out[i]) {
        FilterRemoveStep(calls, f, out, i);
        out := SwapRemove(out, i);
      } else {
        i := i + 1;
      }
    }
    FilterDone(calls, f, out);
  }

  // ---------------------------------------------------------------- batch

  /** The model-matrix count of a list of calls. */
  function Total(s: seq<DrawCall>): nat
  {
    if |s| == 0 then 0 else Total(s[..|s| - 1]) + |s[|s| - 1].matrices|
  }

  lemma {:induction false} TotalUpdate(s: seq<DrawCall>, j: nat, y: DrawCall)
    requires j < |s|
    ensures Total(s[j := y]) == Total(s) - |s[j].matrices| + |y.matrices|
  {
    var n := |s|;
    if j < n - 1 {
      TotalUpdate(s[..n - 1], j, y);
      assert s[j := y][..n - 1] == s[..n - 1][j := y];
    } else {
      assert s[j := y][..n - 1] == s[..n - 1];
    }
  }

  lemma TotalSwapRemove(s: seq<DrawCall>, i: nat)
    requires i < |s|
    ensures Total(SwapRemove(s, i)) == Total(s) - |s[i].matrices|
  {
    var t := s[i := s[|s| - 1]];
    TotalUpdate(s, i, s[|s| - 1]);
    assert SwapRemove(s, i) == t[..|t| - 1];
  }

  /** The matrix count does not depend on the order of the calls. */
  lemma {:induction false} TotalPerm(a: seq<DrawCall>, b: seq<DrawCall>)
    requires multiset(a) == multiset(b)
    ensures Total(a) == Total(b)
    decreases |a|
  {
    if |a| > 0 {
      var n := |a|;
      var x := a[n - 1];
      assert x in multiset(b);
      var j :| 0 <= j < |b| && b[j] == x;
      TotalSwapRemove(b, j);
      assert a == a[..n - 1] + [x];
      assert multiset(a[..n - 1]) == multiset(SwapRemove(b, j));
      TotalPerm(a[..n - 1], SwapRemove(b, j));
    } else {
      assert |b| == 0;
    }
  }

  lemma {:induction false} TotalOfSingles(s: seq<DrawCall>)
    requires forall c :: c in s ==> |c.matrices| == 1
    ensures Total(s) == |s|
  {
    if |s| > 0 {
      assert forall c :: c in s[..|s| - 1] ==> c in s;
      TotalOfSingles(s[..|s| - 1]);
    }
  }

  /** The union of the matrices `f` picks from each call of `s`. */
  function Gather(s: seq<DrawCall>, f: DrawCall -> multiset<Matrix>): multiset<Matrix>
  {
    if |s| == 0 then multiset{} else Gather(s[..|s| - 1], f) + f(s[|s| - 1])
  }

  lemma {:induction false} GatherUpdate(s: seq<DrawCall>, j: nat, y: DrawCall, f: DrawCall -> multiset<Matrix>)
    requires j < |s|
    ensures Gather(s[j := y], f) + f(s[j]) == Gather(s, f) + f(y)
  {
    var n := |s|;
    var t := s[j := y];
    if j < n - 1 {
      var p := s[..n - 1];
      GatherUpdate(p, j, y, f);
      assert t[..n - 1] == p[j := y] && t[n - 1] == s[n - 1] && p[j] == s[j];
      assert Gather(t, f) == Gather(p[j := y], f) + f(s[n - 1]);
      assert Gather(s, f) == Gather(p, f) + f(s[n - 1]);
      var before, after, last := Gather(p, f), Gather(p[j := y], f), f(s[n - 1]);
      forall x
        ensures (after + last + f(s[j]))[x] == (before + last + f(y))[x]
      {
        assert (after + f(s[j]))[x] == (before + f(y))[x];
      }
      assert after + last + f(s[j]) == before + last + f(y);
    } else {
      assert t[..n - 1] == s[..n - 1];
    }
  }

  lemma GatherSwapRemove(s: seq<DrawCall>, i: nat, f: DrawCall -> multiset<Matrix>)
    requires i < |s|
    ensures Gather(SwapRemove(s, i), f) + f(s[i]) == Gather(s, f)
  {
    var n := |s|;
    var t := s[i := s[n - 1]];
    var r := SwapRemove(s, i);
    GatherUpdate(s, i, s[n - 1], f);
    assert r == t[..n - 1];
    assert Gather(t, f) == Gather(r, f) + f(s[n - 1]);
    var rest, last := Gather(r, f), f(s[n - 1]);
    forall x
      ensures (rest + f(s[i]))[x] == Gather(s, f)[x]
    {
      assert (rest + last + f(s[i]))[x] == (Gather(s, f) + last)[x];
    }
    assert rest + f(s[i]) == Gather(s, f);
  }

  /** What is gathered does not depend on the order of the calls. */
  lemma {:induction false} GatherPerm(a: seq<DrawCall>, b: seq<DrawCall>, f: DrawCall -> multiset<Matrix>)
    requires multiset(a) == multiset(b)
    ensures Gather(a, f) == Gather(b, f)
    decreases |a|
  {
    if |a| > 0 {
      var n := |a|;
      var x := a[n - 1];
      assert x in multiset(b);
      var j :| 0 <= j < |b| && b[j] == x;
      GatherSwapRemove(b, j, f);
      assert a == a[..n - 1] + [x];
      assert multiset(a[..n - 1]) == multiset(SwapRemove(b, j));
      GatherPerm(a[..n - 1], SwapRemove(b, j), f);
    } else {
      assert |b| == 0;
    }
  }

  /** The instancing key: the pair the instancing hash combines (lines 14-19). */
  datatype Key = Key(material: nat, geometry: nat)

  function KeyOf(c: DrawCall): Key
  {
    Key(c.material.id, c.geometry)
  }

  predicate Instanceable(c: DrawCall)
  {
    c.material.supportsInstancing
  }

  /** A group leader after taking in one more call's first matrix (lines 89-90). */
  function Joined(g: DrawCall, c: DrawCall): (r: DrawCall)
    requires |c.matrices| >= 1
    ensures r.matrices == g.matrices + [c.matrices[0]]
    ensures ContainsBox(r.aabb, g.aabb) && ContainsBox(r.aabb, c.aabb)
    ensures Origin(r) == Origin(g)
  {
    g.(matrices := g.matrices + [c.matrices[0]], aabb := Combine(g.aabb, c.aabb))
  }

  /** What batching never changes about a call: geometry, material and shadow casting. */
  function Origin(c: DrawCall): DrawCall
  {
    DrawCall(c.geometry, c.material, [], Bounds(0, 0, 0, 0, 0, 0), c.castShadows, false)
  }

  function Origins(s: seq<DrawCall>): set<DrawCall>
  {
    set c | c in s :: Origin(c)
  }

  /** Whether a call passes a filter depends only on its origin. */
  lemma PassesByOrigin(f: DrawCallFilter, c: DrawCall)
    ensures Passes(f, c) == Passes(f, Origin(c))
  {
  }

  /** The model matrices an instanceable call of key `k` contributes. */
  function KeyPart(k: Key, c: DrawCall): multiset<Matrix>
  {
    if Instanceable(c) && KeyOf(c) == k then multiset(c.matrices) else multiset{}
  }

  function KeyF(k: Key): DrawCall -> multiset<Matrix>
  {
    c => KeyPart(k, c)
  }

  /** The model matrices the instanceable calls of key `k` carry, together. */
  function KeyMatrices(s: seq<DrawCall>, k: Key): multiset<Matrix>
  {
    Gather(s, KeyF(k))
  }

  /** An instanced group that can still take calls: fewer than MAX_INSTANCING_COUNT matrices. */
  predicate IsOpen(c: DrawCall)
  {
    Instanceable(c) && |c.matrices| < MAX_INSTANCING_COUNT
  }

  /** How many instanceable calls of key `k` are not full. */
  function OpenCount(s: seq<DrawCall>, k: Key): nat
  {
    if |s| == 0 then 0
    else OpenCount(s[..|s| - 1], k) + if IsOpen(s[|s| - 1]) && KeyOf(s[|s| - 1]) == k then 1 else 0
  }

  lemma {:induction false} OpenCountSwapRemove(s: seq<DrawCall>, i: nat, k: Key)
    requires i < |s|
    ensures OpenCount(SwapRemove(s, i), k) == OpenCount(s, k) - if IsOpen(s[i]) && KeyOf(s[i]) == k then 1 else 0
  {
    var n := |s|;
    var t := s[i := s[n - 1]];
    OpenCountUpdate(s, i, s[n - 1], k);
    assert SwapRemove(s, i) == t[..n - 1];
  }

  lemma {:induction false} OpenCountUpdate(s: seq<DrawCall>, j: nat, y: DrawCall, k: Key)
    requires j < |s|
    ensures OpenCount(s[j := y], k) == OpenCount(s, k)
      - (if IsOpen(s[j]) && KeyOf(s[j]) == k then 1 else 0) + (if IsOpen(y) && KeyOf(y) == k then 1 else 0)
  {
    var n := |s|;
    if j < n - 1 {
      OpenCountUpdate(s[..n - 1], j, y, k);
      assert s[j := y][..n - 1] == s[..n - 1][j := y];
    } else {
      assert s[j := y][..n - 1] == s[..n - 1];
    }
  }

  /** The open count does not depend on the order of the calls. */
  lemma {:induction false} OpenCountPerm(a: seq<DrawCall>, b: seq<DrawCall>, k: Key)
    requires multiset(a) == multiset(b)
    ensures OpenCount(a, k) == OpenCount(b, k)
    decreases |a|
  {
    if |a| > 0 {
      var n := |a|;
      var x := a[n - 1];
      assert x in multiset(b);
      var j :| 0 <= j < |b| && b[j] == x;
      OpenCountSwapRemove(b, j, k);
      assert a == a[..n - 1] + [x];
      assert multiset(a) == multiset(a[..n - 1]) + multiset{x};
      assert multiset(a[..n - 1]) == multiset(SwapRemove(b, j));
      OpenCountPerm(a[..n - 1], SwapRemove(b, j), k);
    } else {
      assert |b| == 0;
    }
  }

  /** How many instanceable calls of key `k` there are. */
  function KeyCount(s: seq<DrawCall>, k: Key): nat
  {
    if |s| == 0 then 0
    else KeyCount(s[..|s| - 1], k) + if Instanceable(s[|s| - 1]) && KeyOf(s[|s| - 1]) == k then 1 else 0
  }

  /**
   * Every full call of key `k` brings at least MAX_INSTANCING_COUNT matrices
   * of the key, and every call of the key at least one when none is empty.
   */
  lemma {:induction false} FullCallsFill(s: seq<DrawCall>, k: Key)
    ensures OpenCount(s, k) <= KeyCount(s, k)
    ensures |KeyMatrices(s, k)| >= MAX_INSTANCING_COUNT * (KeyCount(s, k) - OpenCount(s, k))
    ensures (forall c :: c in s && Instanceable(c) ==> |c.matrices| >= 1) ==> |KeyMatrices(s, k)| >= KeyCount(s, k)
  {
    if |s| > 0 {
      var n := |s|;
      assert forall c :: c in s[..n - 1] ==> c in s;
      FullCallsFill(s[..n - 1], k);
      assert KeyMatrices(s, k) == KeyMatrices(s[..n - 1], k) + KeyPart(k, s[n - 1]);
    }
  }

  /**
   * `o` started out as call `d`: it has d's material, geometry and shadow
   * flag, its matrices begin with d's, and its box holds d's box.
   */
  predicate LedBy(o: DrawCall, d: DrawCall)
  {
    Origin(o) == Origin(d) && d.matrices <= o.matrices && ContainsBox(o.aabb, d.aabb)
  }

  /** `o` started out as one of the calls of `calls`. */
  ghost predicate HasLeader(o: DrawCall, calls: seq<DrawCall>)
  {
    exists d :: d in calls && LedBy(o, d)
  }

  predicate AllSingle(s: seq<DrawCall>)
  {
    forall c :: c in s ==> |c.matrices| == 1
  }

  /** Invariant of the batching loop: the parts every step keeps. */
  ghost predicate BatchInv(calls: seq<DrawCall>, cur: seq<DrawCall>, i: nat, groups: map<Key, nat>, src: seq<nat>)
  {
    KeptInv(calls, cur, i) && LeadInv(cur, i, groups) && LeaderInv(calls, cur, src)
    && (AllSingle(calls) ==> SingleInv(calls, cur, i, groups) && MergeInv(calls, cur, i, groups))
  }

  /** Call m started out as input call src[m]. */
  ghost predicate LeaderInv(calls: seq<DrawCall>, cur: seq<DrawCall>, src: seq<nat>)
  {
    |src| == |cur| && forall m :: 0 <= m < |cur| ==> src[m] < |calls| && LedBy(cur[m], calls[src[m]])
  }

  /**
   * With one matrix per input call: every key's matrices are still all
   * there, and a processed group that is not full is the open group of its key.
   */
  ghost predicate MergeInv(calls: seq<DrawCall>, cur: seq<DrawCall>, i: nat, groups: map<Key, nat>)
  {
    i <= |cur|
    && (forall k :: KeyMatrices(cur, k) == KeyMatrices(calls, k))
    && (forall m :: 0 <= m < i && IsOpen(cur[m]) ==> KeyOf(cur[m]) in groups && groups[KeyOf(cur[m])] == m)
  }

  /** No call is added, calls that cannot be instanced are untouched, and the others keep their origin. */
  ghost predicate KeptInv(calls: seq<DrawCall>, cur: seq<DrawCall>, i: nat)
  {
    i <= |cur| <= |calls|
    && (forall j :: 0 <= j < |cur| && Instanceable(cur[j]) ==> |cur[j].matrices| >= 1)
    && (forall j :: 0 <= j < |cur| ==> Origin(cur[j]) in Origins(calls))
    && (forall x :: !Instanceable(x) ==> multiset(cur)[x] == multiset(calls)[x])
  }

  /** Processed instanceable calls are leaders; the open groups point at processed leaders of their key. */
  ghost predicate LeadInv(cur: seq<DrawCall>, i: nat, groups: map<Key, nat>)
  {
    i <= |cur|
    && (forall j :: 0 <= j < i && Instanceable(cur[j]) ==> cur[j].instanced)
    && (forall k :: k in groups ==> groups[k] < i && KeyOf(cur[groups[k]]) == k && Instanceable(cur[groups[k]]))
  }

  /** With one matrix per input call: the matrix count is kept and no open group is full. */
  ghost predicate SingleInv(calls: seq<DrawCall>, cur: seq<DrawCall>, i: nat, groups: map<Key, nat>)
  {
    i <= |cur|
    && Total(cur) == Total(calls)
    && (forall j :: i <= j < |cur| ==> |cur[j].matrices| == 1)
    && (forall j :: 0 <= j < i && Instanceable(cur[j]) ==> |cur[j].matrices| <= MAX_INSTANCING_COUNT)
    && (forall k :: k in groups && groups[k] < |cur| ==> |cur[groups[k]].matrices| < MAX_INSTANCING_COUNT)
  }

  lemma BatchStart(calls: seq<DrawCall>)
    requires forall j :: 0 <= j < |calls| && Instanceable(calls[j]) ==> |calls[j].matrices| >= 1
    ensures BatchInv(calls, calls, 0, map[], seq(|calls|, m => m))
  {
  }

  lemma BatchSkip(calls: seq<DrawCall>, cur: seq<DrawCall>, i: nat, groups: map<Key, nat>, src: seq<nat>)
    requires BatchInv(calls, cur, i, groups, src) && i < |cur| && !Instanceable(cur[i])
    ensures BatchInv(calls, cur, i + 1, groups, src)
  {
  }

  lemma BatchLead(calls: seq<DrawCall>, cur: seq<DrawCall>, i: nat, groups: map<Key, nat>, src: seq<nat>)
    requires BatchInv(calls, cur, i, groups, src) && i < |cur| && Instanceable(cur[i]) && KeyOf(cur[i]) !in groups
    ensures BatchInv(calls, cur[i := cur[i].(instanced := true)], i + 1, groups[KeyOf(cur[i]) := i], src)
  {
    LeadKept(calls, cur, i);
    LeadLead(cur, i, groups);
    LeadLeader(calls, cur, i, src);
    if AllSingle(calls) {
      LeadSingle(calls, cur, i, groups);
      LeadMerge(calls, cur, i, groups);
    }
  }

  lemma LeadLeader(calls: seq<DrawCall>, cur: seq<DrawCall>, i: nat, src: seq<nat>)
    requires LeaderInv(calls, cur, src) && i < |cur|
    ensures LeaderInv(calls, cur[i := cur[i].(instanced := true)], src)
  {
  }

  lemma LeadMerge(calls: seq<DrawCall>, cur: seq<DrawCall>, i: nat, groups: map<Key, nat>)
    requires MergeInv(calls, cur, i, groups) && i < |cur| && KeyOf(cur[i]) !in groups
    ensures MergeInv(calls, cur[i := cur[i].(instanced := true)], i + 1, groups[KeyOf(cur[i]) := i])
  {
    var c := cur[i].(instanced := true);
    forall k
      ensures KeyMatrices(cur[i := c], k) == KeyMatrices(calls, k)
    {
      GatherSame(cur, i, c, KeyF(k));
    }
  }

  /** Replacing a call by one that contributes the same matrices changes nothing. */
  lemma GatherSame(s: seq<DrawCall>, j: nat, y: DrawCall, f: DrawCall -> multiset<Matrix>)
    requires j < |s| && f(s[j]) == f(y)
    ensures Gather(s[j := y], f) == Gather(s, f)
  {
    GatherUpdate(s, j, y, f);
    var a, b := Gather(s[j := y], f), Gather(s, f);
    forall x
      ensures a[x] == b[x]
    {
      assert (a + f(s[j]))[x] == (b + f(y))[x];
    }
  }

  lemma LeadKept(calls: seq<DrawCall>, cur: seq<DrawCall>, i: nat)
    requires KeptInv(calls, cur, i) && i < |cur| && Instanceable(cur[i])
    ensures KeptInv(calls, cur[i := cur[i].(instanced := true)], i + 1)
  {
    var c := cur[i].(instanced := true);
    assert Origin(c) == Origin(cur[i]);
    assert multiset(cur[i := c]) == multiset(cur) - multiset{cur[i]} + multiset{c};
  }

  lemma LeadLead(cur: seq<DrawCall>, i: nat, groups: map<Key, nat>)
    requires LeadInv(cur, i, groups) && i < |cur| && Instanceable(cur[i]) && KeyOf(cur[i]) !in groups
    ensures LeadInv(cur[i := cur[i].(instanced := true)], i + 1, groups[KeyOf(cur[i]) := i])
  {
  }

  lemma LeadSingle(calls: seq<DrawCall>, cur: seq<DrawCall>, i: nat, groups: map<Key, nat>)
    requires SingleInv(calls, cur, i, groups) && i < |cur| && KeyOf(cur[i]) !in groups
    requires forall k :: k in groups ==> groups[k] < i
    ensures SingleInv(calls, cur[i := cur[i].(instanced := true)], i + 1, groups[KeyOf(cur[i]) := i])
  {
    TotalUpdate(cur, i, cur[i].(instanced := true));
  }

  /** The list after call i joins the group led by call j. */
  function JoinStep(cur: seq<DrawCall>, i: nat, j: nat): (r: seq<DrawCall>)
    requires j < i < |cur| && |cur[i].matrices| >= 1
    ensures |r| == |cur| - 1
  {
    SwapRemove(cur[j := Joined(cur[j], cur[i])], i)
  }

  /**
   * A join moves the last call into the joining call's place (lines 92-94),
   * so the call scanned next can be a later call of its key: with two keys
   * of two calls each, the fourth call is scanned before the third and
   * leads their group.
   */
  lemma JoinMovesLastForward(a: DrawCall, b: DrawCall, c: DrawCall, d: DrawCall)
    requires |b.matrices| >= 1
    ensures JoinStep([a, b, c, d], 1, 0) == [Joined(a, b), d, c]
  {
  }

  lemma JoinKept(calls: seq<DrawCall>, cur: seq<DrawCall>, i: nat, j: nat)
    requires KeptInv(calls, cur, i) && j < i < |cur| && Instanceable(cur[i]) && Instanceable(cur[j])
    ensures KeptInv(calls, JoinStep(cur, i, j), i)
  {
    JoinCounts(calls, cur, i, j);
    JoinOrigins(calls, cur, i, j);
    JoinMatrices(cur, i, j);
  }

  lemma JoinMatrices(cur: seq<DrawCall>, i: nat, j: nat)
    requires j < i < |cur| && |cur[i].matrices| >= 1
    requires forall m :: 0 <= m < |cur| && Instanceable(cur[m]) ==> |cur[m].matrices| >= 1
    ensures forall m :: 0 <= m < |JoinStep(cur, i, j)| && Instanceable(JoinStep(cur, i, j)[m]) ==> |JoinStep(cur, i, j)[m].matrices| >= 1
  {
    var next := JoinStep(cur, i, j);
    forall m | 0 <= m < |next| && Instanceable(next[m])
      ensures |next[m].matrices| >= 1
    {
      if m == i {
        assert next[m] == cur[|cur| - 1];
      } else if m != j {
        assert next[m] == cur[m];
      }
    }
  }

  lemma JoinCounts(calls: seq<DrawCall>, cur: seq<DrawCall>, i: nat, j: nat)
    requires j < i < |cur| && Instanceable(cur[i]) && Instanceable(cur[j]) && |cur[i].matrices| >= 1
    requires forall x :: !Instanceable(x) ==> multiset(cur)[x] == multiset(calls)[x]
    ensures forall x :: !Instanceable(x) ==> multiset(JoinStep(cur, i, j))[x] == multiset(calls)[x]
  {
    var g := Joined(cur[j], cur[i]);
    var u := cur[j := g];
    var next := SwapRemove(u, i);
    assert u[i] == cur[i];
    assert multiset(u) == multiset(cur) - multiset{cur[j]} + multiset{g};
    forall x | !Instanceable(x)
      ensures multiset(next)[x] == multiset(calls)[x]
    {
      assert x != cur[i] && x != cur[j] && x != g;
    }
  }

  lemma JoinOrigins(calls: seq<DrawCall>, cur: seq<DrawCall>, i: nat, j: nat)
    requires j < i < |cur| && |cur[i].matrices| >= 1
    requires forall m :: 0 <= m < |cur| ==> Origin(cur[m]) in Origins(calls)
    ensures forall m :: 0 <= m < |JoinStep(cur, i, j)| ==> Origin(JoinStep(cur, i, j)[m]) in Origins(calls)
  {
    var g := Joined(cur[j], cur[i]);
    var u := cur[j := g];
    var next := SwapRemove(u, i);
    forall m | 0 <= m < |next|
      ensures Origin(next[m]) in Origins(calls)
    {
      if m == j {
        assert Origin(next[m]) == Origin(cur[j]);
      } else if m == i {
        assert next[m] == cur[|cur| - 1];
      } else {
        assert next[m] == cur[m];
      }
    }
  }

  lemma JoinLead(cur: seq<DrawCall>, i: nat, groups: map<Key, nat>, groups': map<Key, nat>, j: nat)
    requires LeadInv(cur, i, groups) && j < i < |cur| && |cur[i].matrices| >= 1
    requires forall k :: k in groups' ==> k in groups && groups'[k] == groups[k]
    ensures LeadInv(JoinStep(cur, i, j), i, groups')
  {
    var next := JoinStep(cur, i, j);
    assert next[j] == Joined(cur[j], cur[i]);
    forall m | 0 <= m < i && m != j
      ensures next[m] == cur[m]
    {
    }
  }

  lemma JoinSingle(calls: seq<DrawCall>, cur: seq<DrawCall>, i: nat, groups: map<Key, nat>, j: nat)
    requires SingleInv(calls, cur, i, groups) && j < i < |cur| && LeadInv(cur, i, groups)
    requires KeyOf(cur[i]) in groups && j == groups[KeyOf(cur[i])] && Instanceable(cur[j])
    ensures var g := Joined(cur[j], cur[i]);
      SingleInv(calls, JoinStep(cur, i, j), i,
        if |g.matrices| >= MAX_INSTANCING_COUNT then groups - {KeyOf(cur[i])} else groups)
  {
    var g := Joined(cur[j], cur[i]);
    var u := cur[j := g];
    var next := JoinStep(cur, i, j);
    TotalUpdate(cur, j, g);
    TotalSwapRemove(u, i);
    assert u[i] == cur[i];
    assert next[j] == g;
    forall m | 0 <= m < i && m != j
      ensures next[m] == cur[m]
    {
    }
    forall m | i <= m < |next|
      ensures |next[m].matrices| == 1
    {
      if m == i {
        assert next[m] == cur[|cur| - 1];
      } else {
        assert next[m] == cur[m];
      }
    }
  }

  lemma BatchJoin(calls: seq<DrawCall>, cur: seq<DrawCall>, i: nat, groups: map<Key, nat>, src: seq<nat>)
    requires BatchInv(calls, cur, i, groups, src) && i < |cur| && Instanceable(cur[i]) && KeyOf(cur[i]) in groups
    ensures groups[KeyOf(cur[i])] < i && |cur[i].matrices| >= 1
    ensures var j := groups[KeyOf(cur[i])];
      var g := Joined(cur[j], cur[i]);
      BatchInv(calls, JoinStep(cur, i, j), i,
        if |g.matrices| >= MAX_INSTANCING_COUNT then groups - {KeyOf(cur[i])} else groups, SwapRemove(src, i))
  {
    var k := KeyOf(cur[i]);
    var j := groups[k];
    var g := Joined(cur[j], cur[i]);
    var groups' := if |g.matrices| >= MAX_INSTANCING_COUNT then groups - {k} else groups;
    JoinKept(calls, cur, i, j);
    JoinLead(cur, i, groups, groups', j);
    JoinLeader(calls, cur, i, j, src);
    if AllSingle(calls) {
      JoinSingle(calls, cur, i, groups, j);
      JoinMerge(calls, cur, i, groups, j);
    }
  }

  lemma JoinLeader(calls: seq<DrawCall>, cur: seq<DrawCall>, i: nat, j: nat, src: seq<nat>)
    requires LeaderInv(calls, cur, src) && j < i < |cur| && |cur[i].matrices| >= 1
    ensures LeaderInv(calls, JoinStep(cur, i, j), SwapRemove(src, i))
  {
    var g := Joined(cur[j], cur[i]);
    var next := JoinStep(cur, i, j);
    var src' := SwapRemove(src, i);
    assert LedBy(g, calls[src[j]]);
    forall m | 0 <= m < |next|
      ensures src'[m] < |calls| && LedBy(next[m], calls[src'[m]])
    {
      if m == j {
        assert next[m] == g && src'[m] == src[j];
      } else if m == i {
        assert next[m] == cur[|cur| - 1] && src'[m] == src[|src| - 1];
      } else {
        assert next[m] == cur[m] && src'[m] == src[m];
      }
    }
  }

  /** The joined leader carries the matrices of both calls. */
  lemma JoinedParts(cur: seq<DrawCall>, i: nat, j: nat, k: Key)
    requires j < i < |cur| && |cur[i].matrices| == 1 && Instanceable(cur[i]) && Instanceable(cur[j])
    requires KeyOf(cur[i]) == KeyOf(cur[j])
    ensures KeyPart(k, Joined(cur[j], cur[i])) == KeyPart(k, cur[j]) + KeyPart(k, cur[i])
  {
    var g := Joined(cur[j], cur[i]);
    var m := cur[i].matrices[0];
    assert cur[i].matrices == [m];
    assert g.matrices == cur[j].matrices + [m];
    assert multiset(g.matrices) == multiset(cur[j].matrices) + multiset{m};
    assert Instanceable(g) && KeyOf(g) == KeyOf(cur[j]);
  }

  /** A join moves the joining call's matrix to its leader: every key keeps its matrices. */
  lemma JoinGather(cur: seq<DrawCall>, i: nat, j: nat, k: Key)
    requires j < i < |cur| && |cur[i].matrices| == 1 && Instanceable(cur[i]) && Instanceable(cur[j])
    requires KeyOf(cur[i]) == KeyOf(cur[j])
    ensures KeyMatrices(JoinStep(cur, i, j), k) == KeyMatrices(cur, k)
  {
    var f := KeyF(k);
    var g := Joined(cur[j], cur[i]);
    var u := cur[j := g];
    var next := JoinStep(cur, i, j);
    assert u[i] == cur[i];
    GatherUpdate(cur, j, g, f);
    GatherSwapRemove(u, i, f);
    JoinedParts(cur, i, j, k);
    assert f(g) == f(cur[j]) + f(cur[i]);
    var a, b, c := Gather(next, f), Gather(u, f), Gather(cur, f);
    forall x
      ensures a[x] == c[x]
    {
      assert (a + f(cur[i]))[x] == b[x];
      assert (b + f(cur[j]))[x] == (c + f(g))[x];
    }
  }

  lemma JoinMerge(calls: seq<DrawCall>, cur: seq<DrawCall>, i: nat, groups: map<Key, nat>, j: nat)
    requires MergeInv(calls, cur, i, groups) && LeadInv(cur, i, groups) && i < |cur| && |cur[i].matrices| == 1
    requires Instanceable(cur[i]) && KeyOf(cur[i]) in groups && j == groups[KeyOf(cur[i])]
    ensures var g := Joined(cur[j], cur[i]);
      MergeInv(calls, JoinStep(cur, i, j), i,
        if |g.matrices| >= MAX_INSTANCING_COUNT then groups - {KeyOf(cur[i])} else groups)
  {
    var key := KeyOf(cur[i]);
    var g := Joined(cur[j], cur[i]);
    var u := cur[j := g];
    var next := JoinStep(cur, i, j);
    var groups' := if |g.matrices| >= MAX_INSTANCING_COUNT then groups - {key} else groups;
    assert u[i] == cur[i];
    forall k
      ensures KeyMatrices(next, k) == KeyMatrices(calls, k)
    {
      JoinGather(cur, i, j, k);
    }
    forall m | 0 <= m < i && IsOpen(next[m])
      ensures KeyOf(next[m]) in groups' && groups'[KeyOf(next[m])] == m
    {
      if m == j {
        assert next[m] == g;
      } else {
        assert next[m] == cur[m];
      }
    }
  }

  lemma BatchDone(calls: seq<DrawCall>, cur: seq<DrawCall>, groups: map<Key, nat>, src: seq<nat>)
    requires BatchInv(calls, cur, |cur|, groups, src)
    ensures |cur| <= |calls|
    ensures forall x :: !Instanceable(x) ==> multiset(cur)[x] == multiset(calls)[x]
    ensures forall c :: c in cur && Instanceable(c) ==> c.instanced && |c.matrices| >= 1
    ensures forall c :: c in cur ==> Origin(c) in Origins(calls) && HasLeader(c, calls)
    ensures AllSingle(calls) ==>
      Total(cur) == Total(calls)
      && forall c :: c in cur && Instanceable(c) ==> |c.matrices| <= MAX_INSTANCING_COUNT
    ensures AllSingle(calls) ==> forall k :: KeyMatrices(cur, k) == KeyMatrices(calls, k)
    ensures AllSingle(calls) ==> forall k :: OpenCount(cur, k) <= 1
  {
    forall c | c in cur
      ensures HasLeader(c, calls)
    {
      var m :| 0 <= m < |cur| && cur[m] == c;
      assert calls[src[m]] in calls;
    }
    if AllSingle(calls) {
      forall k
        ensures OpenCount(cur, k) <= 1
      {
        OneOpenPerKey(cur, k);
      }
    }
  }

  /** No call of key `k` is open: nothing is gathered for it. */
  lemma {:induction false} NoOpenCalls(s: seq<DrawCall>, k: Key)
    requires forall m :: 0 <= m < |s| ==> !(IsOpen(s[m]) && KeyOf(s[m]) == k)
    ensures OpenCount(s, k) == 0
  {
    if |s| > 0 {
      NoOpenCalls(s[..|s| - 1], k);
    }
  }

  /** When no two open calls share a key, each key has at most one open call. */
  lemma {:induction false} OneOpenPerKey(s: seq<DrawCall>, k: Key)
    requires forall m, n :: 0 <= m < n < |s| && IsOpen(s[m]) && IsOpen(s[n]) ==> KeyOf(s[m]) != KeyOf(s[n])
    ensures OpenCount(s, k) <= 1
  {
    if |s| > 0 {
      var n := |s| - 1;
      var p := s[..n];
      OneOpenPerKey(p, k);
      if IsOpen(s[n]) && KeyOf(s[n]) == k {
        NoOpenCalls(p, k);
      }
    }
  }

  /**
   * BatchDrawCalls (lines 66-99). The first instanceable call of a key
   * becomes the instanced leader; each later call of that key hands its
   * first matrix to the leader and is swap-removed; a leader that reaches
   * MAX_INSTANCING_COUNT matrices is closed, and the next call of its key
   * starts a new group. Calls whose shader does not support instancing are
   * left as they are.
   */
  method BatchDrawCalls(calls: seq<DrawCall>) returns (out: seq<DrawCall>)
    requires forall j :: 0 <= j < |calls| && Instanceable(calls[j]) ==> |calls[j].matrices| >= 1
    ensures |out| <= |calls|
    ensures forall x :: !Instanceable(x) ==> multiset(out)[x] == multiset(calls)[x]
    ensures forall c :: c in out && Instanceable(c) ==> c.instanced && |c.matrices| >= 1
    ensures forall c :: c in out ==> Origin(c) in Origins(calls) && HasLeader(c, calls)
    ensures AllSingle(calls) ==>
      Total(out) == Total(calls)
      && forall c :: c in out && Instanceable(c) ==> |c.matrices| <= MAX_INSTANCING_COUNT
    ensures AllSingle(calls) ==> forall k :: KeyMatrices(out, k) == KeyMatrices(calls, k)
    ensures AllSingle(calls) ==> forall k :: OpenCount(out, k) <= 1
  {
    out := calls;
    var groups: map<Key, nat> := map[];
    var i: nat := 0;
    ghost var src: seq<nat> := seq(|calls|, m => m);
    BatchStart(calls);
    while i < |out|
      invariant BatchInv(calls, out, i, groups, src)
      decreases |out| - i
    {
      if !Instanceable(out[i]) {
        BatchSkip(calls, out, i, groups, src);
        i := i + 1;
      } else if KeyOf(out[i]) !in groups {
        BatchLead(calls, out, i, groups, src);
        groups := groups[KeyOf(out[i]) := i];
        out := out[i := out[i].(instanced := true)];
        i := i + 1;
      } else {
        BatchJoin(calls, out, i, groups, src);
        var k := KeyOf(out[i]);
        var j := groups[k];
        var g := Joined(out[j], out[i]);
        out := JoinStep(out, i, j);
        src := SwapRemove(src, i);
        groups := if |g.matrices| >= MAX_INSTANCING_COUNT then groups - {k} else groups;
      }
    }
    BatchDone(calls, out, groups, src);
  }

  // ---------------------------------------------------------------- sort

  /** The comparer's order, as an integer rank per call. */
  type Rank = DrawCall -> int

  /** SortDrawCalls (lines 101-108): NO_SORTING keeps the order; other modes sort by the comparer. */
  function SortDrawCalls(mode: SortMode, calls: seq<DrawCall>, rank: Rank): (r: seq<DrawCall>)
    ensures multiset(r) == multiset(calls)
    ensures mode == NoSorting ==> r == calls
    ensures mode != NoSorting ==> SortedBy(r, rank)
  {
    if mode == NoSorting then calls else SortBy(calls, rank)
  }

  // ---------------------------------------------------------------- queue

  /** What Prepare promises about the queue built from `setup`, the calls of the setup stage. */
  ghost predicate PreparedFrom(drawCalls: seq<DrawCall>, setup: seq<DrawCall>, settings: RenderSettings, rank: Rank)
  {
    var passing := Passing(setup, settings.filter);
    (forall c :: c in drawCalls ==> Passes(settings.filter, c))
    && Total(drawCalls) == |passing|
    && (forall c :: c in drawCalls && Instanceable(c) ==> c.instanced && 1 <= |c.matrices| <= MAX_INSTANCING_COUNT)
    && (forall x :: !Instanceable(x) ==> multiset(drawCalls)[x] == multiset(passing)[x])
    && (forall k :: KeyMatrices(drawCalls, k) == KeyMatrices(passing, k))
    && (forall k :: OpenCount(drawCalls, k) <= 1)
    && (forall c :: c in drawCalls ==> HasLeader(c, passing))
    && (settings.sorting != NoSorting ==> SortedBy(drawCalls, rank))
  }

  /**
   * With at most one open call of key `k` and fewer matrices of the key than
   * one instanced draw holds, the key has a single call, or none when it has
   * no matrices.
   */
  lemma OneCallPerSmallKey(s: seq<DrawCall>, k: Key)
    requires OpenCount(s, k) <= 1
    requires forall c :: c in s && Instanceable(c) ==> |c.matrices| >= 1
    requires |KeyMatrices(s, k)| < MAX_INSTANCING_COUNT
    ensures KeyCount(s, k) == if |KeyMatrices(s, k)| == 0 then 0 else 1
  {
    FullCallsFill(s, k);
  }

  /**
   * Batching merges: the calls of a key whose matrices fit in one instanced
   * draw end up as a single call after preparation, and a key with no
   * passing call has none.
   */
  lemma PreparedMergesKey(drawCalls: seq<DrawCall>, setup: seq<DrawCall>, settings: RenderSettings, rank: Rank, k: Key)
    requires PreparedFrom(drawCalls, setup, settings, rank)
    requires |KeyMatrices(Passing(setup, settings.filter), k)| < MAX_INSTANCING_COUNT
    ensures KeyCount(drawCalls, k) == if |KeyMatrices(Passing(setup, settings.filter), k)| == 0 then 0 else 1
  {
    assert KeyMatrices(drawCalls, k) == KeyMatrices(Passing(setup, settings.filter), k);
    OneCallPerSmallKey(drawCalls, k);
  }

  /** Filtering keeps one matrix per call. */
  lemma FilteredSingles(setup: seq<DrawCall>, filtered: seq<DrawCall>, f: DrawCallFilter)
    requires AllSingle(setup)
    requires multiset(filtered) == multiset(Passing(setup, f))
    ensures AllSingle(filtered)
  {
    forall c | c in filtered
      ensures |c.matrices| == 1
    {
      assert c in multiset(Passing(setup, f));
    }
  }

  lemma PreparedFacts(setup: seq<DrawCall>, filtered: seq<DrawCall>, batched: seq<DrawCall>, sorted: seq<DrawCall>, settings: RenderSettings, rank: Rank)
    requires AllSingle(setup)
    requires multiset(filtered) == multiset(Passing(setup, settings.filter))
    requires forall c :: c in filtered ==> Passes(settings.filter, c)
    requires forall x :: !Instanceable(x) ==> multiset(batched)[x] == multiset(filtered)[x]
    requires forall c :: c in batched && Instanceable(c) ==> c.instanced && |c.matrices| >= 1
    requires forall c :: c in batched ==> Origin(c) in Origins(filtered)
    requires AllSingle(filtered) ==>
      Total(batched) == Total(filtered)
      && forall c :: c in batched && Instanceable(c) ==> |c.matrices| <= MAX_INSTANCING_COUNT
    requires forall c :: c in batched ==> HasLeader(c, filtered)
    requires AllSingle(filtered) ==> forall k :: KeyMatrices(batched, k) == KeyMatrices(filtered, k)
    requires AllSingle(filtered) ==> forall k :: OpenCount(batched, k) <= 1
    requires sorted == SortDrawCalls(settings.sorting, batched, rank)
    ensures PreparedFrom(sorted, setup, settings, rank)
  {
    var passing := Passing(setup, settings.filter);
    FilteredSingles(setup, filtered, settings.filter);
    PreparedTotal(passing, filtered, batched, sorted);
    SortedPass(filtered, batched, sorted, settings.filter);
    SortedLeaders(batched, sorted);
    PreparedGroups(passing, filtered, batched, sorted);
  }

  /** Filtering and sorting only reorder: the groups batching formed are kept. */
  lemma PreparedGroups(passing: seq<DrawCall>, filtered: seq<DrawCall>, batched: seq<DrawCall>, sorted: seq<DrawCall>)
    requires multiset(filtered) == multiset(passing) && multiset(sorted) == multiset(batched)
    requires forall c :: c in batched ==> HasLeader(c, filtered)
    requires forall k :: KeyMatrices(batched, k) == KeyMatrices(filtered, k)
    requires forall k :: OpenCount(batched, k) <= 1
    ensures forall k :: KeyMatrices(sorted, k) == KeyMatrices(passing, k)
    ensures forall k :: OpenCount(sorted, k) <= 1
    ensures forall c :: c in sorted ==> HasLeader(c, passing)
  {
    forall k
      ensures KeyMatrices(sorted, k) == KeyMatrices(passing, k) && OpenCount(sorted, k) <= 1
    {
      GatherPerm(sorted, batched, KeyF(k));
      GatherPerm(filtered, passing, KeyF(k));
      assert KeyMatrices(batched, k) == KeyMatrices(filtered, k);
      OpenCountPerm(sorted, batched, k);
      assert OpenCount(batched, k) <= 1;
    }
    forall c | c in sorted
      ensures HasLeader(c, passing)
    {
      assert c in multiset(batched);
      assert c in batched;
      assert HasLeader(c, filtered);
      var d :| d in filtered && LedBy(c, d);
      assert d in multiset(passing);
    }
  }

  lemma PreparedTotal(passing: seq<DrawCall>, filtered: seq<DrawCall>, batched: seq<DrawCall>, sorted: seq<DrawCall>)
    requires AllSingle(passing) && multiset(filtered) == multiset(passing)
    requires Total(batched) == Total(filtered) && multiset(sorted) == multiset(batched)
    ensures Total(sorted) == |passing|
  {
    TotalPerm(filtered, passing);
    TotalOfSingles(passing);
    TotalPerm(sorted, batched);
  }

  lemma SortedPass(filtered: seq<DrawCall>, batched: seq<DrawCall>, sorted: seq<DrawCall>, f: DrawCallFilter)
    requires forall c :: c in filtered ==> Passes(f, c)
    requires forall c :: c in batched ==> Origin(c) in Origins(filtered)
    requires multiset(sorted) == multiset(batched)
    ensures forall c :: c in sorted ==> Passes(f, c)
  {
    forall c | c in sorted
      ensures Passes(f, c)
    {
      assert c in multiset(batched);
      assert c in batched;
      assert Origin(c) in Origins(filtered);
      var d :| d in filtered && Origin(d) == Origin(c);
      PassesByOrigin(f, c);
      PassesByOrigin(f, d);
    }
  }

  lemma SortedLeaders(batched: seq<DrawCall>, sorted: seq<DrawCall>)
    requires multiset(sorted) == multiset(batched)
    ensures forall c :: c in sorted ==> c in batched
  {
    forall c | c in sorted
      ensures c in batched
    {
      assert c in multiset(batched);
    }
  }

  class RenderQueue {
    var drawCalls: seq<DrawCall>
    var frustum: Frustum

    constructor(frustum: Frustum)
      ensures drawCalls == [] && this.frustum == frustum
    {
      drawCalls := [];
      this.frustum := frustum;
    }

    /**
     * Prepare (lines 111-122): rebuilds the frustum unless culling is
     * frozen, then runs setup, filter, batching and sorting. The
     * engine-wide EnableFrustumCulling and FreezeFrustumCulling switches
     * are parameters.
     */
    method Prepare(viewProjection: Matrix, renderers: seq<Option<Renderer>>, settings: RenderSettings,
                   enableCulling: bool, freezeCulling: bool, isVisible: Visibility, rank: Rank)
      modifies this
      ensures frustum == if freezeCulling then old(frustum) else Frustum(viewProjection)
      ensures PreparedFrom(drawCalls, Setup(renderers, settings, frustum, enableCulling, isVisible), settings, rank)
    {
      drawCalls := [];
      if !freezeCulling {
        frustum := Frustum(viewProjection);
      }
      var setup := SetupDrawCalls(renderers, settings, frustum, enableCulling, isVisible);
      var filtered := FilterDrawCalls(settings.filter, setup);
      FilteredSingles(setup, filtered, settings.filter);
      var batched := BatchDrawCalls(filtered);
      drawCalls := SortDrawCalls(settings.sorting, batched, rank);
      PreparedFacts(setup, filtered, batched, drawCalls, settings, rank);
    }

    /** Clear (lines 124-127). */
    method Clear()
      modifies this
      ensures drawCalls == [] && frustum == old(frustum)
    {
      drawCalls := [];
    }

    /** IsEmpty (lines 129-132). */
    function IsEmpty(): (r: bool)
      reads this
      ensures r <==> |drawCalls| == 0
    {
      drawCalls == []
    }
  }
}
