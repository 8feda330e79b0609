/**
 * The Android launcher (launchers/android_launcher/AndroidStudio/app/src/main/java/com/artemkonyshev/renderengine):
 * the activity that forwards touch events to the engine, and the GL
 * renderer whose lifecycle callbacks drive it. The engine is modelled by
 * the calls it receives; the views, windows and the native side are not.
 */
module AndroidLaunchers {
  /** MotionEvent action codes, as the Android SDK defines them. */
  const ACTION_DOWN: int := 0
  const ACTION_UP: int := 1
  const ACTION_MOVE: int := 2
  const ACTION_CANCEL: int := 3
  const ACTION_POINTER_DOWN: int := 5
  const ACTION_POINTER_UP: int := 6

  /** One pointer of a motion event: its id and position. */
  datatype Pointer = Pointer(id: int, x: real, y: real)

  datatype EngineCall =
    | Initialized(assets: nat)
    | Tick(width: int, height: int)
    | TouchDown(id: int, x: real, y: real)
    | TouchMove(id: int, x: real, y: real)
    | TouchUp(id: int)

  predicate IsTouch(c: EngineCall)
  {
    c.TouchDown? || c.TouchMove? || c.TouchUp?
  }

  /** EngineFramework, as far as the launcher sees it: the calls it has received. */
  class EngineFramework {
    var calls: seq<EngineCall>

    constructor()
      ensures calls == []
    {
      calls := [];
    }

    method Initialize(assets: nat)
      modifies this
      ensures calls == old(calls) + [Initialized(assets)]
    {
      calls := calls + [Initialized(assets)];
    }

    method TickMainLoop(width: int, height: int)
      modifies this
      ensures calls == old(calls) + [Tick(width, height)]
    {
      calls := calls + [Tick(width, height)];
    }

    method ProcessTouchDown(id: int, x: real, y: real)
      modifies this
      ensures calls == old(calls) + [TouchDown(id, x, y)]
    {
      calls := calls + [TouchDown(id, x, y)];
    }

    method ProcessTouchMove(id: int, x: real, y: real)
      modifies this
      ensures calls == old(calls) + [TouchMove(id, x, y)]
    {
      calls := calls + [TouchMove(id, x, y)];
    }

    method ProcessTouchUp(id: int)
      modifies this
      ensures calls == old(calls) + [TouchUp(id)]
    {
      calls := calls + [TouchUp(id)];
    }
  }

  /**
   * The call onTouchEvent makes for the pointer at `index` (MainActivity.java
   * lines 57-70): a pointer going down or up on its own only counts at the
   * action index, every pointer moves, and other actions make no call.
   */
  function PointerCall(action: int, actionIndex: int, index: nat, p: Pointer): (r: seq<EngineCall>)
    ensures |r| <= 1
  {
    var isSecondaryPointer := index == actionIndex;
    if action == ACTION_DOWN || (action == ACTION_POINTER_DOWN && isSecondaryPointer) then [TouchDown(p.id, p.x, p.y)]
    else if action == ACTION_MOVE then [TouchMove(p.id, p.x, p.y)]
    else if action == ACTION_UP || action == ACTION_CANCEL || (action == ACTION_POINTER_UP && isSecondaryPointer) then [TouchUp(p.id)]
    else []
  }

  /** The calls onTouchEvent makes for a batch of pointers, in pointer order. */
  function TouchCalls(action: int, actionIndex: int, ps: seq<Pointer>): seq<EngineCall>
  {
    if |ps| == 0 then []
    else TouchCalls(action, actionIndex, ps[..|ps| - 1]) + PointerCall(action, actionIndex, |ps| - 1, ps[|ps| - 1])
  }

  /** A primary down, a move, an up or a cancel makes one call for every pointer, in order. */
  lemma {:induction false} EveryPointerCalled(action: int, actionIndex: int, ps: seq<Pointer>)
    ensures action == ACTION_DOWN ==>
      TouchCalls(action, actionIndex, ps) == seq(|ps|, i requires 0 <= i < |ps| => TouchDown(ps[i].id, ps[i].x, ps[i].y))
    ensures action == ACTION_MOVE ==>
      TouchCalls(action, actionIndex, ps) == seq(|ps|, i requires 0 <= i < |ps| => TouchMove(ps[i].id, ps[i].x, ps[i].y))
    ensures action == ACTION_UP || action == ACTION_CANCEL ==>
      TouchCalls(action, actionIndex, ps) == seq(|ps|, i requires 0 <= i < |ps| => TouchUp(ps[i].id))
  {
    if |ps| > 0 {
      EveryPointerCalled(action, actionIndex, ps[..|ps| - 1]);
    }
  }

  /** A secondary pointer going down or up makes one call, for the pointer at the action index only. */
  lemma {:induction false} OnlyActionIndexCalled(action: int, actionIndex: int, ps: seq<Pointer>)
    ensures action == ACTION_POINTER_DOWN ==>
      TouchCalls(action, actionIndex, ps)
        == if 0 <= actionIndex < |ps| then [TouchDown(ps[actionIndex].id, ps[actionIndex].x, ps[actionIndex].y)] else []
    ensures action == ACTION_POINTER_UP ==>
      TouchCalls(action, actionIndex, ps) == if 0 <= actionIndex < |ps| then [TouchUp(ps[actionIndex].id)] else []
  {
    if |ps| > 0 {
      var n := |ps| - 1;
      OnlyActionIndexCalled(action, actionIndex, ps[..n]);
      if 0 <= actionIndex < n {
        assert ps[..n][actionIndex] == ps[actionIndex];
      }
    }
  }

  /** Any other action makes no call at all. */
  lemma {:induction false} OtherActionsSilent(action: int, actionIndex: int, ps: seq<Pointer>)
    requires action !in {ACTION_DOWN, ACTION_UP, ACTION_MOVE, ACTION_CANCEL, ACTION_POINTER_DOWN, ACTION_POINTER_UP}
    ensures TouchCalls(action, actionIndex, ps) == []
  {
    if |ps| > 0 {
      OtherActionsSilent(action, actionIndex, ps[..|ps| - 1]);
    }
  }

  /** Whether a call is a touch call for one of the pointers. */
  predicate ForPointer(c: EngineCall, ps: seq<Pointer>)
  {
    IsTouch(c) && exists i :: 0 <= i < |ps| && c.id == ps[i].id
  }

  /** At most one call per pointer, each a touch call keyed by a pointer's id. */
  lemma {:induction false} CallsForPointers(action: int, actionIndex: int, ps: seq<Pointer>)
    ensures var r := TouchCalls(action, actionIndex, ps);
      |r| <= |ps| && forall k :: 0 <= k < |r| ==> ForPointer(r[k], ps)
  {
    if |ps| > 0 {
      var n := |ps| - 1;
      var prefix := TouchCalls(action, actionIndex, ps[..n]);
      var r := TouchCalls(action, actionIndex, ps);
      CallsForPointers(action, actionIndex, ps[..n]);
      forall k | 0 <= k < |r|
        ensures ForPointer(r[k], ps)
      {
        if k < |prefix| {
          assert r[k] == prefix[k] && ForPointer(prefix[k], ps[..n]);
          var i :| 0 <= i < n && prefix[k].id == ps[..n][i].id;
          assert ps[..n][i] == ps[i];
        } else {
          assert r[k].id == ps[n].id;
        }
      }
    }
  }

  /** When the batch's pointer ids are distinct, no pointer id gets two calls. */
  lemma {:induction false} DistinctCallIds(action: int, actionIndex: int, ps: seq<Pointer>)
    requires forall i, j :: 0 <= i < j < |ps| ==> ps[i].id != ps[j].id
    ensures var r := TouchCalls(action, actionIndex, ps);
      forall k :: 0 <= k < |r| ==> IsTouch(r[k])
    ensures var r := TouchCalls(action, actionIndex, ps);
      forall k, l :: 0 <= k < l < |r| ==> r[k].id != r[l].id
  {
    CallsForPointers(action, actionIndex, ps);
    if |ps| > 0 {
      var n := |ps| - 1;
      var prefix := TouchCalls(action, actionIndex, ps[..n]);
      var r := TouchCalls(action, actionIndex, ps);
      CallsForPointers(action, actionIndex, ps[..n]);
      assert forall i, j :: 0 <= i < j < n ==> ps[..n][i].id != ps[..n][j].id;
      DistinctCallIds(action, actionIndex, ps[..n]);
      forall k, l | 0 <= k < l < |r|
        ensures r[k].id != r[l].id
      {
        assert r[k] == prefix[k];
        if l >= |prefix| {
          assert ForPointer(prefix[k], ps[..n]);
          var i :| 0 <= i < n && prefix[k].id == ps[..n][i].id;
          assert r[l].id == ps[n].id && ps[..n][i] == ps[i];
        } else {
          assert r[l] == prefix[l];
        }
      }
    }
  }

  /** MainActivity (MainActivity.java). */
  class MainActivity {
    /** m_EngineFramework, created by onCreate. */
    const engine: EngineFramework

    /** onCreate (lines 28-47), as far as the engine goes: a fresh engine that has received no call. */
    constructor()
      ensures fresh(engine) && engine.calls == []
    {
      engine := new EngineFramework();
    }

    /** onTouchEvent (lines 49-74): one pass over the batch's pointers; the event is always consumed. */
    method OnTouchEvent(action: int, actionIndex: int, ps: seq<Pointer>) returns (consumed: bool)
      modifies engine
      ensures engine.calls == old(engine.calls) + TouchCalls(action, actionIndex, ps)
      ensures consumed
    {
      for i := 0 to |ps|
        invariant engine.calls == old(engine.calls) + TouchCalls(action, actionIndex, ps[..i])
      {
        assert ps[..i + 1][..i] == ps[..i];
        var p := ps[i];
        var isSecondaryPointer := i == actionIndex;
        var isSecondaryPointerDown := action == ACTION_POINTER_DOWN && isSecondaryPointer;
        var isSecondaryPointerUp := action == ACTION_POINTER_UP && isSecondaryPointer;
        if action == ACTION_DOWN || isSecondaryPointerDown {
          engine.ProcessTouchDown(p.id, p.x, p.y);
        } else if action == ACTION_MOVE {
          engine.ProcessTouchMove(p.id, p.x, p.y);
        } else if action == ACTION_UP || action == ACTION_CANCEL || isSecondaryPointerUp {
          engine.ProcessTouchUp(p.id);
        }
      }
      assert ps[..|ps|] == ps;
      return true;
    }
  }

  /** RenderEngineGLRenderer (RenderEngineGLRenderer.java). */
  class RenderEngineGLRenderer {
    /** m_Width and m_Height: the surface size last reported. */
    var width: int
    var height: int
    /** m_EngineFramework: none until the surface is created. */
    var engine: EngineFramework?
    /** m_AssetManager, as an opaque handle. */
    const assetManager: nat

    /** The constructor (lines 18-21): no engine yet, and a size of 0 by 0. */
    constructor(assetManager: nat)
      ensures this.assetManager == assetManager && engine == null && width == 0 && height == 0
    {
      this.assetManager := assetManager;
      engine := null;
      width, height := 0, 0;
    }

    /** onSurfaceCreated (lines 23-28): a fresh engine, initialised once with the assets. */
    method OnSurfaceCreated()
      modifies this
      ensures engine != null && fresh(engine) && engine.calls == [Initialized(assetManager)]
      ensures width == old(width) && height == old(height)
    {
      var created := new EngineFramework();
      created.Initialize(assetManager);
      engine := created;
    }

    /** onSurfaceChanged (lines 30-35): only remembers the size. */
    method OnSurfaceChanged(newWidth: int, newHeight: int)
      modifies this
      ensures width == newWidth && height == newHeight && engine == old(engine)
      ensures engine != null ==> engine.calls == old(engine.calls)
    {
      width, height := newWidth, newHeight;
    }

    /** onDrawFrame (lines 37-41): one tick at the size last remembered. */
    method OnDrawFrame()
      requires engine != null
      modifies engine
      ensures engine.calls == old(engine.calls) + [Tick(width, height)]
    {
      engine.TickMainLoop(width, height);
    }
  }
}
