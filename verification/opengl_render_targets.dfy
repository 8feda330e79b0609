/**
 * The render-target table of the OpenGL backend
 * (graphics_backend/graphics_backend_implementations/graphics_backend_api_opengl.cpp):
 * for each framebuffer attachment, what the next render pass binds there
 * and which buffers it clears, and the depth of nested debug groups. The
 * GL calls are not modelled; BeginRenderPass reports what it would bind.
 */
module OpenGLRenderTargets {
  import opened TextureCompressorFormats

  /**
   * Attachment slots, as indices into the table: the order of the
   * FramebufferAttachment enum, COLOR_ATTACHMENT0..15, then depth, stencil
   * and depth-stencil; ATTACHMENT_COUNT is its MAX.
   */
  const COLOR_ATTACHMENT0: nat := 0
  const DEPTH_ATTACHMENT: nat := 16
  const STENCIL_ATTACHMENT: nat := 17
  const DEPTH_STENCIL_ATTACHMENT: nat := 18
  const ATTACHMENT_COUNT: nat := 19

  /**
   * The buffers glClear can clear. A GLbitfield of GL_COLOR_BUFFER_BIT,
   * GL_DEPTH_BUFFER_BIT and GL_STENCIL_BUFFER_BIT is the set of its buffers,
   * and a bitwise or is a union.
   */
  datatype Buffer = ColorBuffer | DepthBuffer | StencilBuffer

  /** OpenGLLocal::RenderTargetState (lines 65-75). */
  datatype RenderTargetState = RenderTargetState(
    target: nat, clearFlags: set<Buffer>, isBackbuffer: bool, isEnabled: bool,
    textureType: TextureType, level: int, layer: int)

  datatype LoadAction = Load | Clear | DontCare

  /** The fields of GraphicsBackendRenderTargetDescriptor that AttachRenderTarget reads. */
  datatype RenderTargetDescriptor = RenderTargetDescriptor(
    attachment: nat, texture: nat, textureType: TextureType, loadAction: LoadAction,
    level: int, layer: int, isBackbuffer: bool)

  /** A zero-initialised table entry, as a static array starts out. */
  function ZeroState(): RenderTargetState
  {
    RenderTargetState(0, {}, false, false, NoTextureType, 0, 0)
  }

  /** The entry ResetRenderTargetStates (lines 166-182) gives attachment `i`. */
  function ResetState(i: nat): (s: RenderTargetState)
    ensures s.target == 0 && s.clearFlags == {} && s.isBackbuffer
    ensures s.isEnabled <==> i == COLOR_ATTACHMENT0 || i == DEPTH_STENCIL_ATTACHMENT
  {
    RenderTargetState(0, {}, true, i == COLOR_ATTACHMENT0 || i == DEPTH_STENCIL_ATTACHMENT, TEXTURE_2D, 0, 0)
  }

  /** The buffers a cleared attachment clears (lines 503-531). */
  function ClearBits(attachment: nat): (b: set<Buffer>)
    ensures b != {}
  {
    if attachment == DEPTH_ATTACHMENT then {DepthBuffer}
    else if attachment == STENCIL_ATTACHMENT then {StencilBuffer}
    else if attachment == DEPTH_STENCIL_ATTACHMENT then {DepthBuffer, StencilBuffer}
    else {ColorBuffer}
  }

  /** Whether attaching to `attachment` also changes the entry of `other` (lines 504-527). */
  predicate Linked(attachment: nat, other: nat)
  {
    if attachment == DEPTH_ATTACHMENT then other == DEPTH_STENCIL_ATTACHMENT || other == STENCIL_ATTACHMENT
    else if attachment == STENCIL_ATTACHMENT then other == DEPTH_STENCIL_ATTACHMENT || other == DEPTH_ATTACHMENT
    else if attachment == DEPTH_STENCIL_ATTACHMENT then other == DEPTH_ATTACHMENT || other == STENCIL_ATTACHMENT
    else false
  }

  /** The descriptor's own entry after AttachRenderTarget (lines 484-531). */
  function AttachedState(s: RenderTargetState, d: RenderTargetDescriptor): RenderTargetState
  {
    var flags := if d.loadAction == Clear then ClearBits(d.attachment) else {};
    if d.isBackbuffer then
      var enabled := d.attachment == COLOR_ATTACHMENT0 || d.attachment == DEPTH_STENCIL_ATTACHMENT
                     || d.attachment == DEPTH_ATTACHMENT || d.attachment == STENCIL_ATTACHMENT;
      s.(isBackbuffer := true, target := 0, isEnabled := enabled, clearFlags := flags)
    else
      s.(isBackbuffer := false, target := d.texture, textureType := d.textureType,
         level := d.level, layer := d.layer, isEnabled := true, clearFlags := flags)
  }

  /**
   * The table after AttachRenderTarget (lines 479-532). A texture is bound
   * where the descriptor says; a backbuffer attachment binds target 0.
   * The clear flags are set exactly when the load action is CLEAR. Depth,
   * stencil and combined depth-stencil exclude each other, except that a
   * depth attachment turns the stencil entry on with target 0.
   */
  function Attached(ss: seq<RenderTargetState>, d: RenderTargetDescriptor): (r: seq<RenderTargetState>)
    requires |ss| == ATTACHMENT_COUNT && d.attachment < ATTACHMENT_COUNT
    ensures |r| == ATTACHMENT_COUNT
    ensures var s := r[d.attachment];
      (!d.isBackbuffer ==> s.target == d.texture && s.level == d.level && s.layer == d.layer && s.isEnabled && !s.isBackbuffer)
      && (d.isBackbuffer ==> s.target == 0 && s.isBackbuffer)
      && (d.isBackbuffer ==> (s.isEnabled <==> d.attachment in {COLOR_ATTACHMENT0, DEPTH_ATTACHMENT, STENCIL_ATTACHMENT, DEPTH_STENCIL_ATTACHMENT}))
      && (s.clearFlags != {} <==> d.loadAction == Clear)
      && (d.loadAction == Clear ==> s.clearFlags == ClearBits(d.attachment))
    ensures d.attachment == DEPTH_ATTACHMENT ==>
      !r[DEPTH_STENCIL_ATTACHMENT].isEnabled && r[STENCIL_ATTACHMENT].isEnabled && r[STENCIL_ATTACHMENT].target == 0
    ensures d.attachment == STENCIL_ATTACHMENT ==>
      !r[DEPTH_STENCIL_ATTACHMENT].isEnabled && !r[DEPTH_ATTACHMENT].isEnabled && r[DEPTH_ATTACHMENT].target == 0
    ensures d.attachment == DEPTH_STENCIL_ATTACHMENT ==>
      !r[DEPTH_ATTACHMENT].isEnabled && !r[STENCIL_ATTACHMENT].isEnabled
    ensures forall i :: 0 <= i < ATTACHMENT_COUNT && i != d.attachment && !Linked(d.attachment, i) ==> r[i] == ss[i]
  {
    var a := d.attachment;
    var s := ss[a := AttachedState(ss[a], d)];
    if a == DEPTH_ATTACHMENT then
      s[DEPTH_STENCIL_ATTACHMENT := s[DEPTH_STENCIL_ATTACHMENT].(isEnabled := false)]
       [STENCIL_ATTACHMENT := s[STENCIL_ATTACHMENT].(isEnabled := true, target := 0)]
    else if a == STENCIL_ATTACHMENT then
      s[DEPTH_STENCIL_ATTACHMENT := s[DEPTH_STENCIL_ATTACHMENT].(isEnabled := false)]
       [DEPTH_ATTACHMENT := s[DEPTH_ATTACHMENT].(isEnabled := false, target := 0)]
    else if a == DEPTH_STENCIL_ATTACHMENT then
      s[DEPTH_ATTACHMENT := s[DEPTH_ATTACHMENT].(isEnabled := false)]
       [STENCIL_ATTACHMENT := s[STENCIL_ATTACHMENT].(isEnabled := false)]
    else s
  }

  /** A render pass draws to the backbuffer when no enabled entry binds a texture (lines 1024-1027). */
  predicate UsesBackbuffer(ss: seq<RenderTargetState>)
  {
    forall i :: 0 <= i < |ss| && ss[i].isEnabled ==> ss[i].isBackbuffer || ss[i].target == 0
  }

  /** The buffers a render pass clears: the union of the enabled entries' flags (lines 1024-1028). */
  function ClearMask(ss: seq<RenderTargetState>): set<Buffer>
  {
    if |ss| == 0 then {}
    else ClearMask(ss[..|ss| - 1]) + (if ss[|ss| - 1].isEnabled then ss[|ss| - 1].clearFlags else {})
  }

  /** A buffer is cleared exactly when some enabled entry asks for it. */
  lemma {:induction false} ClearMaskBuffers(ss: seq<RenderTargetState>, b: Buffer)
    ensures b in ClearMask(ss) <==> exists i :: 0 <= i < |ss| && ss[i].isEnabled && b in ss[i].clearFlags
  {
    if |ss| > 0 {
      var n := |ss| - 1;
      ClearMaskBuffers(ss[..n], b);
      assert forall i :: 0 <= i < n ==> ss[..n][i] == ss[i];
    }
  }

  /** One texture binding of a render pass on the engine's framebuffer (lines 1038-1047). */
  datatype Binding = Binding(attachment: nat, textureType: TextureType, target: nat, level: int, layer: int)

  /** The bindings for the enabled entries among the first |ss| attachments, in attachment order. */
  function Bindings(ss: seq<RenderTargetState>): (r: seq<Binding>)
    ensures |r| <= |ss|
    ensures forall k :: 0 <= k < |r| ==> r[k].attachment < |ss| && ss[r[k].attachment].isEnabled
  {
    if |ss| == 0 then []
    else
      var n := |ss| - 1;
      var s := ss[n];
      Bindings(ss[..n]) + if s.isEnabled then [Binding(n, s.textureType, s.target, s.level, s.layer)] else []
  }

  /** Whether some binding is for attachment `i`. */
  predicate BindsAttachment(bs: seq<Binding>, i: nat)
  {
    exists k :: 0 <= k < |bs| && bs[k].attachment == i
  }

  /** Every enabled entry is bound exactly once, and the bindings come in attachment order. */
  lemma {:induction false} BindingsComplete(ss: seq<RenderTargetState>)
    ensures forall i :: 0 <= i < |ss| && ss[i].isEnabled ==> BindsAttachment(Bindings(ss), i)
    ensures forall k, l :: 0 <= k < l < |Bindings(ss)| ==> Bindings(ss)[k].attachment < Bindings(ss)[l].attachment
  {
    if |ss| > 0 {
      var n := |ss| - 1;
      BindingsComplete(ss[..n]);
      var prefix := Bindings(ss[..n]);
      var r := Bindings(ss);
      forall i | 0 <= i < |ss| && ss[i].isEnabled
        ensures BindsAttachment(r, i)
      {
        if i < n {
          assert ss[..n][i] == ss[i];
          assert BindsAttachment(prefix, i);
          var k :| 0 <= k < |prefix| && prefix[k].attachment == i;
          assert r[k] == prefix[k];
        } else {
          assert r[|prefix|].attachment == i;
        }
      }
      forall k, l | 0 <= k < l < |r|
        ensures r[k].attachment < r[l].attachment
      {
        assert r[k] == prefix[k] && r[k].attachment < n;
        if l < |prefix| {
          assert r[l] == prefix[l];
        }
      }
    }
  }

  /** After a reset a pass draws to the backbuffer and clears nothing. */
  lemma ResetPass()
    ensures var ss := seq(ATTACHMENT_COUNT, i requires 0 <= i => ResetState(i));
      UsesBackbuffer(ss) && ClearMask(ss) == {}
  {
    var ss := seq(ATTACHMENT_COUNT, i requires 0 <= i => ResetState(i));
    forall b: Buffer
      ensures b !in ClearMask(ss)
    {
      ClearMaskBuffers(ss, b);
    }
  }

  /** Attaching a real texture takes the next pass off the backbuffer, and a clear load action clears its buffers. */
  lemma AttachedPass(ss: seq<RenderTargetState>, d: RenderTargetDescriptor)
    requires |ss| == ATTACHMENT_COUNT && d.attachment < ATTACHMENT_COUNT
    ensures !d.isBackbuffer && d.texture != 0 ==> !UsesBackbuffer(Attached(ss, d))
    ensures d.loadAction == Clear && Attached(ss, d)[d.attachment].isEnabled ==> ClearBits(d.attachment) <= ClearMask(Attached(ss, d))
  {
    var r := Attached(ss, d);
    forall b | b in ClearBits(d.attachment) && d.loadAction == Clear && r[d.attachment].isEnabled
      ensures b in ClearMask(r)
    {
      ClearMaskBuffers(r, b);
    }
  }

  /** The OpenGL backend's render-target table and debug-group counter. */
  class OpenGLBackend {
    /** s_RenderTargetStates, by attachment index. */
    const states: array<RenderTargetState>
    /** s_DebugGroupId: the number of open debug groups. */
    var debugGroupId: nat

    ghost predicate Valid()
      reads this
    {
      states.Length == ATTACHMENT_COUNT
    }

    /** The table as initialised by Init (line 279). */
    constructor()
      ensures Valid() && fresh(states) && debugGroupId == 0
      ensures forall i :: 0 <= i < ATTACHMENT_COUNT ==> states[i] == ResetState(i)
    {
      states := new RenderTargetState[ATTACHMENT_COUNT](_ => ZeroState());
      debugGroupId := 0;
      new;
      ResetRenderTargetStates();
    }

    /** ResetRenderTargetStates (lines 166-182). */
    method ResetRenderTargetStates()
      requires Valid()
      modifies states
      ensures forall i :: 0 <= i < ATTACHMENT_COUNT ==> states[i] == ResetState(i)
    {
      for i := 0 to ATTACHMENT_COUNT
        invariant forall j :: 0 <= j < i ==> states[j] == ResetState(j)
      {
        states[i] := ResetState(i);
      }
    }

    /** AttachRenderTarget (lines 479-532). */
    method AttachRenderTarget(d: RenderTargetDescriptor)
      requires Valid() && d.attachment < ATTACHMENT_COUNT
      modifies states
      ensures states[..] == Attached(old(states[..]), d)
    {
      var a := d.attachment;
      states[a] := AttachedState(states[a], d);
      if a == DEPTH_ATTACHMENT {
        states[DEPTH_STENCIL_ATTACHMENT] := states[DEPTH_STENCIL_ATTACHMENT].(isEnabled := false);
        states[STENCIL_ATTACHMENT] := states[STENCIL_ATTACHMENT].(isEnabled := true, target := 0);
      } else if a == STENCIL_ATTACHMENT {
        states[DEPTH_STENCIL_ATTACHMENT] := states[DEPTH_STENCIL_ATTACHMENT].(isEnabled := false);
        states[DEPTH_ATTACHMENT] := states[DEPTH_ATTACHMENT].(isEnabled := false, target := 0);
      } else if a == DEPTH_STENCIL_ATTACHMENT {
        states[DEPTH_ATTACHMENT] := states[DEPTH_ATTACHMENT].(isEnabled := false);
        states[STENCIL_ATTACHMENT] := states[STENCIL_ATTACHMENT].(isEnabled := false);
      }
    }

    /** PushDebugGroup (lines 947-952). */
    method PushDebugGroup()
      modifies this
      ensures debugGroupId == old(debugGroupId) + 1
    {
      debugGroupId := debugGroupId + 1;
    }

    /** PopDebugGroup (lines 954-961): only an open group can be closed. */
    method PopDebugGroup()
      requires debugGroupId > 0
      modifies this
      ensures debugGroupId == old(debugGroupId) - 1
    {
      debugGroupId := debugGroupId - 1;
    }

    /**
     * BeginRenderPass (lines 1017-1061): whether the pass draws to the
     * backbuffer, the buffers it clears, and, on the engine's framebuffer,
     * the textures it binds. A debug group is opened.
     */
    method BeginRenderPass() returns (useBackbuffer: bool, clearMask: set<Buffer>, bound: seq<Binding>)
      requires Valid()
      modifies this
      ensures useBackbuffer == UsesBackbuffer(states[..])
      ensures clearMask == ClearMask(states[..])
      ensures bound == if useBackbuffer then [] else Bindings(states[..])
      ensures debugGroupId == old(debugGroupId) + 1
    {
      useBackbuffer, clearMask := ScanStates();
      PushDebugGroup();
      bound := [];
      if !useBackbuffer {
        bound := CollectBindings();
      }
    }

    /** The first loop of BeginRenderPass (lines 1021-1028). */
    method ScanStates() returns (useBackbuffer: bool, clearMask: set<Buffer>)
      requires Valid()
      ensures useBackbuffer == UsesBackbuffer(states[..])
      ensures clearMask == ClearMask(states[..])
    {
      useBackbuffer, clearMask := true, {};
      for i := 0 to ATTACHMENT_COUNT
        invariant useBackbuffer == UsesBackbuffer(states[..i])
        invariant clearMask == ClearMask(states[..i])
      {
        assert states[..i + 1][..i] == states[..i];
        if states[i].isEnabled {
          useBackbuffer := useBackbuffer && (states[i].isBackbuffer || states[i].target == 0);
          clearMask := clearMask + states[i].clearFlags;
        }
      }
      assert states[..ATTACHMENT_COUNT] == states[..];
    }

    /** The binding loop of BeginRenderPass (lines 1040-1047). */
    method CollectBindings() returns (bound: seq<Binding>)
      requires Valid()
      ensures bound == Bindings(states[..])
    {
      bound := [];
      for i := 0 to ATTACHMENT_COUNT
        invariant bound == Bindings(states[..i])
      {
        assert states[..i + 1][..i] == states[..i];
        var s := states[i];
        if s.isEnabled {
          bound := bound + [Binding(i, s.textureType, s.target, s.level, s.layer)];
        }
      }
      assert states[..ATTACHMENT_COUNT] == states[..];
    }

    /** EndRenderPass (lines 1063-1068): the table is reset and the pass's debug group closed. */
    method EndRenderPass()
      requires Valid() && debugGroupId > 0
      modifies this, states
      ensures forall i :: 0 <= i < ATTACHMENT_COUNT ==> states[i] == ResetState(i)
      ensures debugGroupId == old(debugGroupId) - 1
    {
      ResetRenderTargetStates();
      PopDebugGroup();
    }

    /** BeginCopyPass (lines 1070-1073): only a debug group is opened; the table is left alone. */
    method BeginCopyPass()
      modifies this
      ensures debugGroupId == old(debugGroupId) + 1
    {
      PushDebugGroup();
    }

    /** EndCopyPass (lines 1075-1078): closes the copy pass's debug group. */
    method EndCopyPass()
      requires debugGroupId > 0
      modifies this
      ensures debugGroupId == old(debugGroupId) - 1
    {
      PopDebugGroup();
    }
  }
}
