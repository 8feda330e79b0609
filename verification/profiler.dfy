/**
 * The editor profiler (core/editor/profiler/profiler.cpp). Each marker
 * context (the main thread, the GPU render queue and the GPU copy queue)
 * keeps a nesting depth and a bounded history of frames holding timed
 * markers, and GPU markers wait in a pending list until the GPU reports
 * their timestamps. Clock readings, the frame number and the GPU's answers
 * are parameters; times are whole microseconds.
 */
module Profilers {
  import opened Sequences

  /** k_MaxFrames: the frames each context keeps. */
  const MAX_FRAMES: nat := 10

  datatype MarkerType = Marker | Separator

  datatype MarkerContext = MainThread | GpuRender | GpuCopy

  const CONTEXT_COUNT: nat := 3

  /** The position of a context in the per-context arrays. */
  function Index(c: MarkerContext): (r: nat)
    ensures r < CONTEXT_COUNT
  {
    match c
    case MainThread => 0
    case GpuRender => 1
    case GpuCopy => 2
  }

  const MAIN: nat := Index(MainThread)

  datatype MarkerInfo = MarkerInfo(markerType: MarkerType, name: string, depth: int, frame: nat, begin: int, end: int)

  function Begin(m: MarkerInfo): int
  {
    m.begin
  }

  datatype FrameInfo = FrameInfo(markers: seq<MarkerInfo>, frame: nat, isSorted: bool)

  /** A GPU marker: its backend handle (0 when opened while disabled), name, depth and frame. */
  datatype GPUMarkerInfo = GPUMarkerInfo(handle: nat, name: string, depth: int, frame: nat)

  /** What the GPU reports for one of its queues about a resolved marker. */
  datatype ResolveResult = ResolveResult(isCopyQueue: bool, isActive: bool, start: int, end: int)

  /** A frame flagged sorted has its markers in order of their beginning. */
  predicate FlagHonest(f: FrameInfo)
  {
    f.isSorted ==> SortedBy(f.markers, Begin)
  }

  predicate FramesHonest(fs: seq<FrameInfo>)
  {
    forall k :: 0 <= k < |fs| ==> FlagHonest(fs[k])
  }

  /** The history of every context is bounded and its sorted flags are honest. */
  predicate ContextsValid(frames: seq<seq<FrameInfo>>)
  {
    |frames| == CONTEXT_COUNT
    && forall c :: 0 <= c < CONTEXT_COUNT ==> |frames[c]| <= MAX_FRAMES && FramesHonest(frames[c])
  }

  /**
   * A context's frames after a new frame begins (lines 106-113): at the
   * limit the oldest frame goes, and an empty unsorted frame with the new
   * number is appended.
   */
  function Rotated(fs: seq<FrameInfo>, frameNumber: nat): (r: seq<FrameInfo>)
    ensures |r| == (if |fs| >= MAX_FRAMES then |fs| else |fs| + 1)
    ensures r[|r| - 1] == FrameInfo([], frameNumber, false)
    ensures r[..|r| - 1] == fs[|fs| - (|r| - 1)..]
  {
    (if |fs| >= MAX_FRAMES then fs[1..] else fs) + [FrameInfo([], frameNumber, false)]
  }

  /** A bounded, honest history stays so, and is never empty, after a rotation. */
  lemma RotatedValid(fs: seq<FrameInfo>, frameNumber: nat)
    requires |fs| <= MAX_FRAMES && FramesHonest(fs)
    ensures 1 <= |Rotated(fs, frameNumber)| <= MAX_FRAMES && FramesHonest(Rotated(fs, frameNumber))
  {
    var r := Rotated(fs, frameNumber);
    forall k | 0 <= k < |r|
      ensures FlagHonest(r[k])
    {
      if k < |r| - 1 {
        assert r[k] == r[..|r| - 1][k] == fs[|fs| - (|r| - 1) + k];
      }
    }
  }

  /** Rotating one context's history keeps every history valid. */
  lemma RotateKeepsValid(frames: seq<seq<FrameInfo>>, c: nat, frameNumber: nat)
    requires ContextsValid(frames) && c < CONTEXT_COUNT
    ensures ContextsValid(frames[c := Rotated(frames[c], frameNumber)])
    ensures 1 <= |Rotated(frames[c], frameNumber)|
  {
    RotatedValid(frames[c], frameNumber);
  }

  /** The frame AddMarkerInfo targets (lines 166-182), or -1 for none. */
  function TargetFrame(fs: seq<FrameInfo>, frame: nat): (r: int)
    ensures -1 <= r < |fs|
  {
    if frame == 0 then |fs| - 1 else FirstIndex(fs, (f: FrameInfo) => f.frame == frame)
  }

  /**
   * A context's frames after AddMarkerInfo while enabled (lines 164-188):
   * frame 0 means the newest frame, any other number the first frame with
   * that number; the marker is appended there and the frame marked
   * unsorted, and with no such frame the marker is dropped.
   */
  function AddedTo(fs: seq<FrameInfo>, marker: MarkerInfo, frame: nat): (r: seq<FrameInfo>)
    ensures frame == 0 && |fs| > 0 ==>
      r == fs[|fs| - 1 := FrameInfo(fs[|fs| - 1].markers + [marker], fs[|fs| - 1].frame, false)]
    ensures frame != 0 ==> forall k :: 0 <= k < |fs| && fs[k].frame == frame && (forall j :: 0 <= j < k ==> fs[j].frame != frame) ==>
      r == fs[k := FrameInfo(fs[k].markers + [marker], fs[k].frame, false)]
    ensures frame == 0 && |fs| == 0 ==> r == fs
    ensures frame != 0 && (forall k :: 0 <= k < |fs| ==> fs[k].frame != frame) ==> r == fs
  {
    var t := TargetFrame(fs, frame);
    if t < 0 then fs else fs[t := FrameInfo(fs[t].markers + [marker], fs[t].frame, false)]
  }

  /** Adding a marker keeps the number and order of frames and their honest flags. */
  lemma AddedToValid(fs: seq<FrameInfo>, marker: MarkerInfo, frame: nat)
    requires FramesHonest(fs)
    ensures var r := AddedTo(fs, marker, frame);
      |r| == |fs| && FramesHonest(r) && forall k :: 0 <= k < |fs| ==> r[k].frame == fs[k].frame
  {
  }

  /** The marker a resolve result of a GPU marker becomes (lines 143-145). */
  function ResultMarker(gm: GPUMarkerInfo, result: ResolveResult): MarkerInfo
  {
    MarkerInfo(Marker, gm.name, gm.depth, gm.frame, result.start, result.end)
  }

  /** The queue-to-context mapping of lines 127-137: the copy queue feeds GPU_COPY, every other GPU_RENDER. */
  function QueueContext(isCopyQueue: bool): (c: MarkerContext)
    ensures c != MainThread
    ensures c == GpuCopy <==> isCopyQueue
  {
    if isCopyQueue then GpuCopy else GpuRender
  }

  /** The frames after one queue's result of a resolved GPU marker (lines 139-146). */
  function WithResult(frames: seq<seq<FrameInfo>>, gm: GPUMarkerInfo, result: ResolveResult): (r: seq<seq<FrameInfo>>)
    requires |frames| == CONTEXT_COUNT
    ensures |r| == CONTEXT_COUNT && r[MAIN] == frames[MAIN]
  {
    if !result.isActive then frames
    else
      var c := Index(QueueContext(result.isCopyQueue));
      frames[c := AddedTo(frames[c], ResultMarker(gm, result), gm.frame)]
  }

  /** The frames after every queue's result of a resolved GPU marker, queue by queue. */
  function WithResults(frames: seq<seq<FrameInfo>>, gm: GPUMarkerInfo, results: seq<ResolveResult>): (r: seq<seq<FrameInfo>>)
    requires |frames| == CONTEXT_COUNT
    ensures |r| == CONTEXT_COUNT && r[MAIN] == frames[MAIN]
  {
    if |results| == 0 then frames
    else WithResult(WithResults(frames, gm, results[..|results| - 1]), gm, results[|results| - 1])
  }

  /** The frames after the results of several resolved GPU markers, in the order they were handled. */
  function WithMarkers(frames: seq<seq<FrameInfo>>, gms: seq<GPUMarkerInfo>, resolved: map<nat, seq<ResolveResult>>): (r: seq<seq<FrameInfo>>)
    requires |frames| == CONTEXT_COUNT
    requires forall m :: m in gms ==> m.handle in resolved
    ensures |r| == CONTEXT_COUNT && r[MAIN] == frames[MAIN]
  {
    if |gms| == 0 then frames
    else
      var last := gms[|gms| - 1];
      WithResults(WithMarkers(frames, gms[..|gms| - 1], resolved), last, resolved[last.handle])
  }

  /** Handling one more resolved marker adds its results to those of the markers handled before. */
  lemma WithMarkersStep(frames: seq<seq<FrameInfo>>, gms: seq<GPUMarkerInfo>, gm: GPUMarkerInfo, resolved: map<nat, seq<ResolveResult>>)
    requires |frames| == CONTEXT_COUNT
    requires (forall m :: m in gms ==> m.handle in resolved) && gm.handle in resolved
    ensures forall m :: m in gms + [gm] ==> m.handle in resolved
    ensures WithMarkers(frames, gms + [gm], resolved) == WithResults(WithMarkers(frames, gms, resolved), gm, resolved[gm.handle])
  {
    assert (gms + [gm])[..|gms|] == gms;
  }

  /** Moving a pending marker to the handled list loses and gains no marker. */
  lemma HandledStep(pending: seq<GPUMarkerInfo>, i: nat, handled: seq<GPUMarkerInfo>)
    requires i < |pending|
    ensures multiset(SwapRemove(pending, i)) + multiset(handled + [pending[i]]) == multiset(pending) + multiset(handled)
  {
  }

  /** Two sets of histories with the same frames, frame numbers and order. */
  predicate SameShape(a: seq<seq<FrameInfo>>, b: seq<seq<FrameInfo>>)
  {
    |a| == |b| && forall c :: 0 <= c < |a| ==> |a[c]| == |b[c]| && forall k :: 0 <= k < |a[c]| ==> a[c][k].frame == b[c][k].frame
  }

  /** One GPU result keeps every history valid and changes no frame number. */
  lemma WithResultValid(frames: seq<seq<FrameInfo>>, gm: GPUMarkerInfo, result: ResolveResult)
    requires ContextsValid(frames)
    ensures ContextsValid(WithResult(frames, gm, result)) && SameShape(WithResult(frames, gm, result), frames)
  {
    if result.isActive {
      var c := Index(QueueContext(result.isCopyQueue));
      AddedToValid(frames[c], ResultMarker(gm, result), gm.frame);
    }
  }

  /** GPU results keep every history valid and change no frame number. */
  lemma {:induction false} WithResultsValid(frames: seq<seq<FrameInfo>>, gm: GPUMarkerInfo, results: seq<ResolveResult>)
    requires ContextsValid(frames)
    ensures ContextsValid(WithResults(frames, gm, results)) && SameShape(WithResults(frames, gm, results), frames)
  {
    if |results| > 0 {
      var prefix := WithResults(frames, gm, results[..|results| - 1]);
      WithResultsValid(frames, gm, results[..|results| - 1]);
      WithResultValid(prefix, gm, results[|results| - 1]);
    }
  }

  /** The separator every new main-thread frame starts with (line 116). */
  function SeparatorInfo(now: int): MarkerInfo
  {
    MarkerInfo(Separator, "", 0, 0, now, now)
  }

  /** A frame after SortMarkers (lines 28-35): an unsorted frame with several markers is sorted by beginning and flagged. */
  function SortedFrame(f: FrameInfo): (r: FrameInfo)
    ensures r.frame == f.frame && multiset(r.markers) == multiset(f.markers)
    ensures r.isSorted <==> f.isSorted || |f.markers| > 1
    ensures FlagHonest(f) ==> SortedBy(r.markers, Begin) && FlagHonest(r)
  {
    if !f.isSorted && |f.markers| > 1 then FrameInfo(SortBy(f.markers, Begin), f.frame, true) else f
  }

  class Profiler {
    /** s_IsEnabled. */
    var enabled: bool
    /** s_ContextDepth, by context index. */
    var depth: seq<int>
    /** s_ContextFrames, by context index, oldest frame first. */
    var frames: seq<seq<FrameInfo>>
    /** s_PendingGPUMarkers. */
    var pending: seq<GPUMarkerInfo>

    ghost predicate Valid()
      reads this
    {
      |depth| == CONTEXT_COUNT && ContextsValid(frames)
    }

    constructor()
      ensures Valid() && !enabled && depth == [0, 0, 0] && frames == [[], [], []] && pending == []
    {
      enabled := false;
      depth := [0, 0, 0];
      frames := [[], [], []];
      pending := [];
    }

    /** IncrementDepth (lines 15-18): returns the depth before the increment. */
    method IncrementDepth(c: MarkerContext) returns (previous: int)
      requires Valid()
      modifies this
      ensures Valid()
      ensures previous == old(depth[Index(c)]) && depth == old(depth)[Index(c) := previous + 1]
      ensures enabled == old(enabled) && frames == old(frames) && pending == old(pending)
    {
      previous := depth[Index(c)];
      depth := depth[Index(c) := previous + 1];
    }

    /** DecrementDepth (lines 20-23): returns the depth before the decrement. */
    method DecrementDepth(c: MarkerContext) returns (previous: int)
      requires Valid()
      modifies this
      ensures Valid()
      ensures previous == old(depth[Index(c)]) && depth == old(depth)[Index(c) := previous - 1]
      ensures enabled == old(enabled) && frames == old(frames) && pending == old(pending)
    {
      previous := depth[Index(c)];
      depth := depth[Index(c) := previous - 1];
    }

    /** SetEnabled (lines 96-99). */
    method SetEnabled(on: bool)
      requires Valid()
      modifies this
      ensures Valid()
      ensures enabled == on && depth == old(depth) && frames == old(frames) && pending == old(pending)
    {
      enabled := on;
    }

    /** AddMarkerInfo (lines 159-189): nothing happens while disabled. */
    method AddMarkerInfo(c: MarkerContext, marker: MarkerInfo, frame: nat)
      requires Valid()
      modifies this
      ensures Valid()
      ensures old(enabled) ==> frames == old(frames)[Index(c) := AddedTo(old(frames)[Index(c)], marker, frame)]
      ensures !old(enabled) ==> frames == old(frames)
      ensures enabled == old(enabled) && depth == old(depth) && pending == old(pending)
    {
      if !enabled {
        return;
      }
      var fs := frames[Index(c)];
      var t;
      if frame == 0 {
        t := |fs| - 1;
      } else {
        t := FindFirst(fs, (f: FrameInfo) => f.frame == frame);
      }
      AddedToValid(fs, marker, frame);
      if t >= 0 {
        fs := fs[t := FrameInfo(fs[t].markers + [marker], fs[t].frame, false)];
      }
      frames := frames[Index(c) := fs];
    }

    /** Marker's constructor (lines 67-71, 38-46): a main-thread marker opened at `now`. */
    method OpenMarker(name: string, frameNumber: nat, now: int) returns (info: MarkerInfo)
      requires Valid()
      modifies this
      ensures Valid()
      ensures info == MarkerInfo(Marker, name, old(depth[MAIN]), frameNumber, now, now)
      ensures depth == old(depth)[MAIN := old(depth[MAIN]) + 1]
      ensures enabled == old(enabled) && frames == old(frames) && pending == old(pending)
    {
      var d := IncrementDepth(MainThread);
      info := MarkerInfo(Marker, name, d, frameNumber, now, now);
    }

    /** Marker's destructor (lines 73-78): the marker closes at `now` and joins the newest main-thread frame. */
    method CloseMarker(info: MarkerInfo, now: int)
      requires Valid()
      modifies this
      ensures Valid()
      ensures old(enabled) ==> frames == old(frames)[MAIN := AddedTo(old(frames)[MAIN], info.(end := now), 0)]
      ensures !old(enabled) ==> frames == old(frames)
      ensures depth == old(depth)[MAIN := old(depth[MAIN]) - 1]
      ensures enabled == old(enabled) && pending == old(pending)
    {
      AddMarkerInfo(MainThread, info.(end := now), 0);
      var _ := DecrementDepth(MainThread);
    }

    /**
     * A Marker's whole lifetime (lines 67-78): the depth comes back to
     * where it was, and the newest main-thread frame gains one marker at
     * the depth the scope was opened at.
     */
    method MarkerScope(name: string, frameNumber: nat, begin: int, end: int)
      requires Valid()
      modifies this
      ensures Valid()
      ensures depth == old(depth)
      ensures old(enabled) ==>
        frames == old(frames)[MAIN := AddedTo(old(frames)[MAIN], MarkerInfo(Marker, name, old(depth[MAIN]), frameNumber, begin, end), 0)]
      ensures !old(enabled) ==> frames == old(frames)
    {
      var info := OpenMarker(name, frameNumber, begin);
      CloseMarker(info, end);
    }

    /**
     * GPUMarker's constructor (lines 80-84, 48-56): a GPU-render depth, and
     * a backend marker (`pushed`) only while enabled.
     */
    method OpenGpuMarker(name: string, frameNumber: nat, pushed: nat) returns (info: GPUMarkerInfo)
      requires Valid()
      modifies this
      ensures Valid()
      ensures info == GPUMarkerInfo(if old(enabled) then pushed else 0, name, old(depth[Index(GpuRender)]), frameNumber)
      ensures depth == old(depth)[Index(GpuRender) := old(depth[Index(GpuRender)]) + 1]
      ensures enabled == old(enabled) && frames == old(frames) && pending == old(pending)
    {
      var d := IncrementDepth(GpuRender);
      info := GPUMarkerInfo(if enabled then pushed else 0, name, d, frameNumber);
    }

    /** GPUMarker's destructor (lines 86-94): while enabled the marker waits for the GPU. */
    method CloseGpuMarker(info: GPUMarkerInfo)
      requires Valid()
      modifies this
      ensures Valid()
      ensures pending == if old(enabled) then old(pending) + [info] else old(pending)
      ensures depth == old(depth)[Index(GpuRender) := old(depth[Index(GpuRender)]) - 1]
      ensures enabled == old(enabled) && frames == old(frames)
    {
      if enabled {
        pending := pending + [info];
      }
      var _ := DecrementDepth(GpuRender);
    }

    /** The frame rotation of BeginNewFrame (lines 106-113), context by context. */
    method RotateFrames(frameNumber: nat)
      requires Valid()
      modifies this
      ensures Valid()
      ensures |frames| == CONTEXT_COUNT
      ensures forall c :: 0 <= c < CONTEXT_COUNT ==> frames[c] == Rotated(old(frames)[c], frameNumber)
      ensures enabled == old(enabled) && depth == old(depth) && pending == old(pending)
    {
      for c := 0 to CONTEXT_COUNT
        invariant Valid() && enabled == old(enabled) && depth == old(depth) && pending == old(pending)
        invariant forall d :: 0 <= d < c ==> frames[d] == Rotated(old(frames)[d], frameNumber)
        invariant forall d :: c <= d < CONTEXT_COUNT ==> frames[d] == old(frames)[d]
      {
        RotateKeepsValid(frames, c, frameNumber);
        frames := frames[c := Rotated(frames[c], frameNumber)];
      }
    }

    /** The active results of one resolved GPU marker join their contexts' frames (lines 125-147). */
    method AddResults(gm: GPUMarkerInfo, results: seq<ResolveResult>)
      requires Valid() && enabled
      modifies this
      ensures Valid()
      ensures frames == WithResults(old(frames), gm, results)
      ensures enabled == old(enabled) && depth == old(depth) && pending == old(pending)
    {
      for q := 0 to |results|
        invariant Valid() && enabled && depth == old(depth) && pending == old(pending)
        invariant frames == WithResults(old(frames), gm, results[..q])
      {
        assert results[..q + 1][..q] == results[..q];
        if results[q].isActive {
          AddMarkerInfo(QueueContext(results[q].isCopyQueue), ResultMarker(gm, results[q]), gm.frame);
        }
      }
      assert results[..|results|] == results;
    }

    /** One resolved pending marker gives up its results and is swapped out of the list (lines 123-151). */
    method Handle(i: nat, results: seq<ResolveResult>)
      requires Valid() && enabled && i < |pending|
      modifies this
      ensures Valid()
      ensures frames == WithResults(old(frames), old(pending)[i], results)
      ensures pending == SwapRemove(old(pending), i)
      ensures enabled == old(enabled) && depth == old(depth)
    {
      AddResults(pending[i], results);
      pending := SwapRemove(pending, i);
    }

    /**
     * The pending loop of BeginNewFrame (lines 118-153): each marker the GPU
     * has resolved gives up its results and is swapped out of the list;
     * the others stay. `handled` lists the resolved markers in the order
     * they were handled.
     */
    method ResolvePending(resolved: map<nat, seq<ResolveResult>>) returns (ghost handled: seq<GPUMarkerInfo>)
      requires Valid() && enabled
      modifies this
      ensures Valid()
      ensures forall m :: m in handled ==> m.handle in resolved
      ensures forall m :: m in pending ==> m.handle !in resolved
      ensures multiset(pending) + multiset(handled) == multiset(old(pending))
      ensures frames == WithMarkers(old(frames), handled, resolved)
      ensures enabled == old(enabled) && depth == old(depth)
    {
      handled := [];
      var i := 0;
      while i < |pending|
        invariant Valid() && enabled && depth == old(depth)
        invariant 0 <= i <= |pending|
        invariant forall m :: m in handled ==> m.handle in resolved
        invariant forall j :: 0 <= j < i ==> pending[j].handle !in resolved
        invariant multiset(pending) + multiset(handled) == multiset(old(pending))
        invariant frames == WithMarkers(old(frames), handled, resolved)
        decreases |pending| - i
      {
        var gm := pending[i];
        if gm.handle in resolved {
          WithMarkersStep(old(frames), handled, gm, resolved);
          HandledStep(pending, i, handled);
          Handle(i, resolved[gm.handle]);
          handled := handled + [gm];
        } else {
          i := i + 1;
        }
      }
    }

    /** SortMarkers (lines 25-36): afterwards every frame of the context is in order of beginning. */
    method SortMarkers(c: MarkerContext)
      requires Valid()
      modifies this
      ensures Valid()
      ensures |frames| == CONTEXT_COUNT && |frames[Index(c)]| == |old(frames)[Index(c)]|
      ensures frames[Index(c)] == SortedFrames(old(frames)[Index(c)])
      ensures forall k :: 0 <= k < |frames[Index(c)]| ==> SortedBy(frames[Index(c)][k].markers, Begin)
      ensures forall d :: 0 <= d < CONTEXT_COUNT && d != Index(c) ==> frames[d] == old(frames)[d]
      ensures enabled == old(enabled) && depth == old(depth) && pending == old(pending)
    {
      var ci := Index(c);
      var fs := frames[ci];
      for k := 0 to |fs|
        invariant |fs| == |old(frames)[ci]| && FramesHonest(fs)
        invariant forall j :: 0 <= j < k ==> fs[j] == SortedFrame(old(frames)[ci][j]) && SortedBy(fs[j].markers, Begin)
        invariant forall j :: k <= j < |fs| ==> fs[j] == old(frames)[ci][j]
      {
        fs := fs[k := SortedFrame(fs[k])];
      }
      frames := frames[ci := fs];
    }

    /** The first half of BeginNewFrame (lines 106-116): new frames everywhere, a separator on the main thread. */
    method StartFrames(frameNumber: nat, now: int)
      requires Valid()
      modifies this
      ensures Valid()
      ensures frames == Started(old(frames), frameNumber, now)
      ensures enabled == old(enabled) && depth == old(depth) && pending == old(pending)
    {
      RotateFrames(frameNumber);
      assert frames == RotatedAll(old(frames), frameNumber);
      StartedValid(old(frames), frameNumber, now);
      frames := frames[MAIN := WithSeparator(frames[MAIN], now)];
    }

    /**
     * BeginNewFrame (lines 101-157). While disabled nothing changes.
     * Otherwise every context starts a new frame, the main thread's opened
     * by a separator; every pending GPU marker the GPU has resolved
     * (`resolved`, by handle) leaves the pending list and its results join
     * the GPU contexts' frames, which are then sorted. The others stay
     * pending. `handled` lists the resolved markers in the order handled.
     */
    method BeginNewFrame(frameNumber: nat, now: int, resolved: map<nat, seq<ResolveResult>>) returns (ghost handled: seq<GPUMarkerInfo>)
      requires Valid()
      modifies this
      ensures Valid()
      ensures enabled == old(enabled) && depth == old(depth)
      ensures !old(enabled) ==> frames == old(frames) && pending == old(pending) && handled == []
      ensures forall m :: m in handled ==> m.handle in resolved
      ensures multiset(pending) + multiset(handled) == multiset(old(pending))
      ensures old(enabled) ==> forall m :: m in pending ==> m.handle !in resolved
      ensures old(enabled) ==> frames[MAIN] == NewMainFrames(old(frames)[MAIN], frameNumber, now)
      ensures old(enabled) ==>
        var gpu := WithMarkers(Started(old(frames), frameNumber, now), handled, resolved);
        frames[Index(GpuRender)] == SortedFrames(gpu[Index(GpuRender)])
        && frames[Index(GpuCopy)] == SortedFrames(gpu[Index(GpuCopy)])
    {
      handled := [];
      if !enabled {
        return;
      }
      StartFrames(frameNumber, now);
      handled := ResolvePending(resolved);
      ghost var gpu := frames;
      SortMarkers(GpuRender);
      SortMarkers(GpuCopy);
      assert frames[Index(GpuRender)] == SortedFrames(gpu[Index(GpuRender)]);
    }
  }

  /** A history whose newest frame gains the separator (line 116). */
  function WithSeparator(fs: seq<FrameInfo>, now: int): (r: seq<FrameInfo>)
    requires |fs| > 0
    ensures |r| == |fs| && r[..|r| - 1] == fs[..|fs| - 1]
    ensures r[|r| - 1] == FrameInfo(fs[|fs| - 1].markers + [SeparatorInfo(now)], fs[|fs| - 1].frame, fs[|fs| - 1].isSorted)
  {
    var newest := fs[|fs| - 1];
    fs[|fs| - 1 := FrameInfo(newest.markers + [SeparatorInfo(now)], newest.frame, newest.isSorted)]
  }

  /** The main-thread history after BeginNewFrame: rotated, the new frame holding just a separator. */
  function NewMainFrames(fs: seq<FrameInfo>, frameNumber: nat, now: int): (r: seq<FrameInfo>)
    ensures |r| == |Rotated(fs, frameNumber)|
    ensures r[|r| - 1] == FrameInfo([SeparatorInfo(now)], frameNumber, false)
    ensures r[..|r| - 1] == fs[|fs| - (|r| - 1)..]
  {
    assert [] + [SeparatorInfo(now)] == [SeparatorInfo(now)];
    WithSeparator(Rotated(fs, frameNumber), now)
  }

  /** Every history after the first half of BeginNewFrame. */
  function Started(frames: seq<seq<FrameInfo>>, frameNumber: nat, now: int): (r: seq<seq<FrameInfo>>)
    requires |frames| == CONTEXT_COUNT
    ensures |r| == CONTEXT_COUNT && r[MAIN] == NewMainFrames(frames[MAIN], frameNumber, now)
    ensures forall c :: 0 <= c < CONTEXT_COUNT && c != MAIN ==> r[c] == Rotated(frames[c], frameNumber)
  {
    RotatedAll(frames, frameNumber)[MAIN := NewMainFrames(frames[MAIN], frameNumber, now)]
  }

  /** Starting a frame keeps every history bounded and honest, and none is empty. */
  lemma StartedValid(frames: seq<seq<FrameInfo>>, frameNumber: nat, now: int)
    requires ContextsValid(frames)
    ensures var r := Started(frames, frameNumber, now);
      ContextsValid(r) && forall c :: 0 <= c < CONTEXT_COUNT ==> |r[c]| >= 1
  {
    var r := Started(frames, frameNumber, now);
    forall c | 0 <= c < CONTEXT_COUNT
      ensures |r[c]| <= MAX_FRAMES && FramesHonest(r[c]) && |r[c]| >= 1
    {
      RotatedValid(frames[c], frameNumber);
      if c == MAIN {
        var rotated := Rotated(frames[c], frameNumber);
        forall k | 0 <= k < |r[c]|
          ensures FlagHonest(r[c][k])
        {
          if k < |r[c]| - 1 {
            assert r[c][k] == r[c][..|r[c]| - 1][k] == rotated[k];
          }
        }
      }
    }
  }

  /** Every context's history after a rotation. */
  function RotatedAll(frames: seq<seq<FrameInfo>>, frameNumber: nat): (r: seq<seq<FrameInfo>>)
    requires |frames| == CONTEXT_COUNT
    ensures |r| == CONTEXT_COUNT && forall c :: 0 <= c < CONTEXT_COUNT ==> r[c] == Rotated(frames[c], frameNumber)
  {
    seq(CONTEXT_COUNT, c requires 0 <= c < CONTEXT_COUNT => Rotated(frames[c], frameNumber))
  }

  /** A history after SortMarkers. */
  function SortedFrames(fs: seq<FrameInfo>): (r: seq<FrameInfo>)
    ensures |r| == |fs| && forall k :: 0 <= k < |fs| ==> r[k] == SortedFrame(fs[k])
  {
    seq(|fs|, k requires 0 <= k < |fs| => SortedFrame(fs[k]))
  }
}
