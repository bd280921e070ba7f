/**
 * The mobile backend: the vignette is an iris mesh drawn by command buffers on the
 * camera. Without the mask a depth-reject buffer fills the periphery's depth before
 * opaque geometry; with the mask a stencil buffer of the mask objects is drawn
 * instead, and the effect buffer switches to the iris passes that test the stencil.
 *
 * The component keeps the camera's registrations in step with `useMask` by remembering
 * the mask state it registered with (`wasUsingMask`). As written, enabling and
 * disabling use the current `useMask` instead; the `...AsWritten` members model that
 * and the lifecycle members below model the intended behaviour.
 */
module Mobile {
  import opened UnityMath
  import opened Presets
  import opened MobilePresets
  import opened Motion
  import opened Cameras
  import opened MaskObjects

  /** Where the mask and effect buffers run. */
  const FX_EVENT := CameraEvent.BeforeImageEffects
  /** Where the depth-reject buffer runs. */
  const Z_EVENT := CameraEvent.BeforeForwardOpaque

  /** The registrations `SetCommandBuffers(mask)` adds. */
  function BuffersFor(mask: bool): multiset<Registration> {
    (if mask then multiset{Registration(FX_EVENT, Mask)} else multiset{Registration(Z_EVENT, ZReject)})
    + multiset{Registration(FX_EVENT, Effect)}
  }

  /** `SetCommandBuffers(mask)`: the mask buffer or the depth-reject buffer, then the effect buffer. */
  function WithBuffersSet(reg: multiset<Registration>, mask: bool): (r: multiset<Registration>)
    ensures r == reg + BuffersFor(mask)
  {
    var first := if mask then Added(reg, FX_EVENT, Mask) else Added(reg, Z_EVENT, ZReject);
    Added(first, FX_EVENT, Effect)
  }

  /** `UnsetCommandBuffers(mask)`: removes the same pairs `SetCommandBuffers(mask)` adds. */
  function WithBuffersUnset(reg: multiset<Registration>, mask: bool): multiset<Registration> {
    var first := if mask then Removed(reg, FX_EVENT, Mask) else Removed(reg, Z_EVENT, ZReject);
    Removed(first, FX_EVENT, Effect)
  }

  /** Unsetting with the flag that was used for setting leaves the camera as it was. */
  lemma {:induction false} UnsetUndoesSet(mask: bool)
    ensures WithBuffersUnset(WithBuffersSet(multiset{}, mask), mask) == multiset{}
    ensures WithBuffersSet(multiset{}, mask) == BuffersFor(mask)
  {
    var r := WithBuffersUnset(WithBuffersSet(multiset{}, mask), mask);
    forall x ensures r[x] == 0 {
    }
    assert r == multiset{};
  }

  /** A mask transition from the recorded state `was` leaves exactly the buffers for the new state. */
  lemma {:induction false} MaskSwitchRegistersNewBuffers(was: bool, now: bool)
    ensures WithBuffersSet(WithBuffersUnset(BuffersFor(was), was), now) == BuffersFor(now)
  {
    UnsetUndoesSet(was);
    assert WithBuffersUnset(BuffersFor(was), was) == multiset{};
    assert multiset{} + BuffersFor(now) == BuffersFor(now);
  }

  /** Unsetting with the other flag leaves the mask-or-depth buffer the set call added. */
  lemma {:induction false} UnsetWithOtherFlagLeavesOneBehind(mask: bool)
    ensures var left := WithBuffersUnset(WithBuffersSet(multiset{}, mask), !mask);
      |left| == 1
      && (mask ==> left[Registration(FX_EVENT, Mask)] == 1)
      && (!mask ==> left[Registration(Z_EVENT, ZReject)] == 1)
  {
    var left := WithBuffersUnset(WithBuffersSet(multiset{}, mask), !mask);
    var kept := if mask then Registration(FX_EVENT, Mask) else Registration(Z_EVENT, ZReject);
    forall x ensures left[x] == multiset{kept}[x] {
    }
    assert left == multiset{kept};
  }

  /** `ResetEffectCommandBuffer(mask)`: iris passes (outer opaque, inner blended); the stencil-testing pair with the mask. */
  function EffectPasses(mask: bool): (passes: (int, int))
    ensures passes.1 == passes.0 + 1
    ensures mask <==> passes.0 == 3
    ensures !mask <==> passes.0 == 1
  {
    if mask then (3, 4) else (1, 2)
  }

  /** Colour of the iris: the effect colour, except white under a skybox the colour must not tint. */
  function IrisColor(drawSkybox: bool, applyColorToBackground: bool, effectColor: Color): Color {
    if !drawSkybox || applyColorToBackground then effectColor else White
  }

  class MobileEffect {
    const core: MotionCore
    const masks: MaskList

    // Serialized settings.
    var drawSkybox: bool
    var useMask: bool
    var stencilReference: int
    var stencilMask: int
    var stencilBias: real

    /** The camera's command-buffer registrations. */
    var registry: multiset<Registration>
    /** `isActiveAndEnabled`. */
    var enabled: bool
    /** The mask state the buffers were last set up for. */
    var wasUsingMask: bool
    /** Passes the effect buffer draws the iris with. */
    var effectPasses: (int, int)
    /** The renderers the mask buffer draws (its contents are rebuilt from the list). */
    var maskBufferObjects: seq<ObjectId>

    // Shader globals for the stencil.
    var stencilRefGlobal: int
    var stencilMaskGlobal: int
    var stencilBiasGlobal: real

    // Iris material properties.
    var irisInner: real
    var irisOuter: real
    var irisColor: Color
    var irisSkybox: Option<ObjectId>
    var irisSkyboxKeyword: bool

    /**
     * The buffers on the camera are exactly those set up for the recorded mask state,
     * and none while the component is disabled; the effect buffer's passes match that
     * state; the mask buffer draws the listed renderers.
     */
    predicate Valid()
      reads core`motionEffects, core`effect, masks`items
      reads this`maskBufferObjects, this`enabled, this`registry, this`wasUsingMask, this`effectPasses
    {
      core.Valid()
      && maskBufferObjects == masks.items
      && (enabled ==> registry == BuffersFor(wasUsingMask) && effectPasses == EffectPasses(wasUsingMask))
      && (!enabled ==> registry == multiset{})
    }

    /** A disabled component after `Awake`, in a scene with the given Transforms and the serialized mask setting. */
    constructor (scene: map<ObjectId, LocalPose>, useMask: bool)
      ensures Valid() && fresh(core) && fresh(masks) && !enabled && registry == multiset{}
      ensures this.useMask == useMask && !wasUsingMask && effectPasses == EffectPasses(useMask)
      ensures !drawSkybox && stencilReference == 1 && stencilMask == 255 && stencilBias == 1.0
    {
      core := new MotionCore(scene);
      masks := new MaskList();
      drawSkybox, this.useMask := false, useMask;
      stencilReference, stencilMask, stencilBias := 1, 255, 1.0;
      registry, enabled, wasUsingMask := multiset{}, false, false;
      effectPasses := EffectPasses(useMask);
      maskBufferObjects := [];
      stencilRefGlobal, stencilMaskGlobal, stencilBiasGlobal := 0, 0, 0.0;
      irisInner, irisOuter, irisColor, irisSkybox, irisSkyboxKeyword := 0.0, 0.0, White, None, false;
    }

    method SetCommandBuffers(mask: bool)
      modifies this`registry
      ensures registry == WithBuffersSet(old(registry), mask)
    {
      if mask {
        registry := Added(registry, FX_EVENT, Mask);
      } else {
        registry := Added(registry, Z_EVENT, ZReject);
      }
      registry := Added(registry, FX_EVENT, Effect);
    }

    method UnsetCommandBuffers(mask: bool)
      modifies this`registry
      ensures registry == WithBuffersUnset(old(registry), mask)
    {
      if mask {
        registry := Removed(registry, FX_EVENT, Mask);
      } else {
        registry := Removed(registry, Z_EVENT, ZReject);
      }
      registry := Removed(registry, FX_EVENT, Effect);
    }

    method ResetEffectCommandBuffer(mask: bool)
      modifies this`effectPasses
      ensures effectPasses == EffectPasses(mask)
    {
      effectPasses := EffectPasses(mask);
    }

    method ResetMaskCommandBuffer()
      modifies this`maskBufferObjects
      ensures maskBufferObjects == masks.items
    {
      maskBufferObjects := masks.items;
    }

    /**
     * `OnEnable` as intended: the motion state is reset, the buffers are rebuilt and set
     * up for the current mask state, and that state is recorded. Without a motion target
     * the reset throws (`ok` is false): the component is enabled, but nothing else has
     * changed and the camera holds no buffer.
     */
    method OnEnable(target: Option<TargetReading>) returns (ok: bool)
      requires Valid() && !enabled
      modifies this`registry, this`enabled, this`wasUsingMask, this`effectPasses, this`maskBufferObjects
      modifies core`lastFwd, core`lastPos, core`lastSpeed
      modifies core`avSmoothed, core`avSlew, core`speedSmoothed, core`speedSlew, core`accelSmoothed, core`accelSlew
      modifies core`cmRot, core`lastRot
      ensures ok == target.Some? && enabled
      ensures ok ==> core.MotionReset(target.value)
      ensures ok ==> wasUsingMask == useMask && registry == BuffersFor(useMask)
      ensures ok ==> effectPasses == EffectPasses(useMask) && maskBufferObjects == masks.items
      ensures ok ==> Valid()
      ensures !ok ==> unchanged(core) && registry == multiset{} && wasUsingMask == old(wasUsingMask)
    {
      ok := core.ResetMotion(target);
      if !ok {
        enabled := true;
        return;
      }
      SetUpBuffers();
      enabled := true;
    }

    /** The buffer part of `OnEnable`: both buffers rebuilt, then set up for the current mask state, which is recorded. */
    method SetUpBuffers()
      requires registry == multiset{}
      modifies this`registry, this`wasUsingMask, this`effectPasses, this`maskBufferObjects
      ensures wasUsingMask == useMask && registry == BuffersFor(useMask)
      ensures effectPasses == EffectPasses(useMask) && maskBufferObjects == masks.items
    {
      ResetMaskCommandBuffer();
      ResetEffectCommandBuffer(useMask);
      UnsetUndoesSet(useMask);
      SetCommandBuffers(useMask);
      wasUsingMask := useMask;
    }

    /**
     * `OnEnable` as written: the buffers are set up for `useMask`, but `wasUsingMask` is
     * left as it was. Without a motion target the reset throws first and only the
     * component's enabled state changes.
     */
    method OnEnableAsWritten(target: Option<TargetReading>) returns (ok: bool)
      modifies this`registry, this`enabled
      modifies core`lastFwd, core`lastPos, core`lastSpeed
      modifies core`avSmoothed, core`avSlew, core`speedSmoothed, core`speedSlew, core`accelSmoothed, core`accelSlew
      modifies core`cmRot, core`lastRot
      ensures ok == target.Some? && enabled
      ensures ok ==> core.MotionReset(target.value) && registry == WithBuffersSet(old(registry), useMask)
      ensures !ok ==> unchanged(core) && registry == old(registry)
    {
      ok := core.ResetMotion(target);
      if ok {
        SetCommandBuffers(useMask);
      }
      enabled := true;
    }

    /** `OnDisable` as intended: the buffers set up for the recorded mask state are removed. */
    method OnDisable()
      requires Valid() && enabled
      modifies this`registry, this`enabled
      ensures Valid() && !enabled && registry == multiset{}
    {
      UnsetUndoesSet(wasUsingMask);
      UnsetCommandBuffers(wasUsingMask);
      enabled := false;
    }

    /** `OnDisable` as written: the buffers for the current `useMask` are removed. */
    method OnDisableAsWritten()
      modifies this`registry, this`enabled
      ensures !enabled && registry == WithBuffersUnset(old(registry), useMask)
    {
      UnsetCommandBuffers(useMask);
      enabled := false;
    }

    /**
     * The mask transition at the start of `LateUpdate`: when `useMask` differs from the
     * recorded state, the old buffers are removed, both buffers rebuilt, the new ones
     * set up and the new state recorded; otherwise nothing changes.
     */
    method UpdateMaskState()
      modifies this`registry, this`wasUsingMask, this`effectPasses, this`maskBufferObjects
      ensures old(wasUsingMask) != useMask ==>
        registry == WithBuffersSet(WithBuffersUnset(old(registry), old(wasUsingMask)), useMask)
        && maskBufferObjects == masks.items && effectPasses == EffectPasses(useMask)
      ensures old(wasUsingMask) == useMask ==>
        registry == old(registry) && maskBufferObjects == old(maskBufferObjects) && effectPasses == old(effectPasses)
      ensures wasUsingMask == useMask
    {
      if wasUsingMask != useMask {
        SwitchMaskState();
      }
    }

    /** The body of the mask transition: old buffers off, both buffers rebuilt, new buffers on, state recorded. */
    method SwitchMaskState()
      modifies this`registry, this`wasUsingMask, this`effectPasses, this`maskBufferObjects
      ensures wasUsingMask == useMask
      ensures effectPasses == EffectPasses(useMask)
      ensures maskBufferObjects == masks.items
      ensures registry == WithBuffersSet(WithBuffersUnset(old(registry), old(wasUsingMask)), useMask)
    {
      UnsetCommandBuffers(wasUsingMask);
      ResetMaskCommandBuffer();
      ResetEffectCommandBuffer(useMask);
      SetCommandBuffers(useMask);
      wasUsingMask := useMask;
    }

    /**
     * The mask transition at the start of `LateUpdate` on a consistent, enabled
     * component: afterwards the camera holds exactly the buffers for the current `useMask`.
     */
    method PrepareMask()
      requires Valid() && enabled
      modifies this`registry, this`wasUsingMask, this`effectPasses, this`maskBufferObjects
      ensures registry == BuffersFor(useMask) && wasUsingMask == useMask && effectPasses == EffectPasses(useMask)
      ensures maskBufferObjects == masks.items && enabled
      ensures Valid()
    {
      UpdateMaskState();
      MaskSwitchRegistersNewBuffers(old(wasUsingMask), useMask);
    }

    /** The stencil globals of `LateUpdate`: set from the settings, bias negated, when the mask is used. */
    method SetStencilGlobals()
      modifies this`stencilRefGlobal, this`stencilMaskGlobal, this`stencilBiasGlobal
      ensures useMask ==>
        stencilRefGlobal == stencilReference && stencilMaskGlobal == stencilMask && stencilBiasGlobal == -stencilBias
      ensures !useMask ==>
        stencilRefGlobal == old(stencilRefGlobal) && stencilMaskGlobal == old(stencilMaskGlobal)
        && stencilBiasGlobal == old(stencilBiasGlobal)
    {
      if useMask {
        stencilRefGlobal, stencilMaskGlobal, stencilBiasGlobal := stencilReference, stencilMask, -stencilBias;
      }
    }

    /** The end of `LateUpdate`: the iris material takes the tick's radius, feather, colour and skybox. */
    method DrawIris(radius: real)
      modifies this`irisInner, this`irisOuter, this`irisColor, this`irisSkybox, this`irisSkyboxKeyword
      ensures irisInner == radius && irisOuter == radius - core.effectFeather
      ensures irisColor == IrisColor(drawSkybox, core.applyColorToBackground, core.effectColor)
      ensures irisSkyboxKeyword == drawSkybox && irisSkybox == (if drawSkybox then core.effectSkybox else None)
    {
      irisInner, irisOuter := radius, radius - core.effectFeather;
      irisColor := IrisColor(drawSkybox, core.applyColorToBackground, core.effectColor);
      if drawSkybox {
        irisSkybox, irisSkyboxKeyword := core.effectSkybox, true;
      } else {
        irisSkybox, irisSkyboxKeyword := None, false;
      }
    }

    /** The motion tick of `LateUpdate`, then the iris material when the tick completed. */
    method TickMotion(f: Frame) returns (r: MotionResult)
      requires core.Valid()
      modifies this`irisInner, this`irisOuter, this`irisColor, this`irisSkybox, this`irisSkyboxKeyword
      modifies core`avSmoothed, core`avSlew, core`speedSmoothed, core`speedSlew, core`accelSmoothed, core`accelSlew
      modifies core`effect
      modifies core`cmRot, core`lastFwd, core`lastPos, core`lastSpeed, core`lastVel, core`lastRot
      ensures f.target.None? ==> r == NullReference
      ensures f.target.Some? ==>
        (r.Strength? <==> !DivisionFailsOn(core.motionEffects.motionEffectTarget, f.frameCount, old(core.effect.lastFpsDivision),
                                            core.motionEffects.framerateDivision, core.motionEffects.divideTranslation, core.motionEffects.divideRotation))
      ensures f.target.Some? ==> core.Measured(f.target.value, f, old(core.Memory()))
      ensures r.Strength? ==>
        r.value == EffectStrength(if f.forcedValue.Some? then f.forcedValue.value else core.ChannelTotal(f.engine), core.effectCoverage)
      ensures r.Strength? ==> core.Cached(f.target.value, f, old(core.Memory()))
      ensures r.Strength? ==> irisInner == r.value && irisOuter == r.value - core.effectFeather
      ensures r.Strength? ==> irisColor == IrisColor(drawSkybox, core.applyColorToBackground, core.effectColor)
      ensures r.Strength? ==> irisSkyboxKeyword == drawSkybox && irisSkybox == (if drawSkybox then core.effectSkybox else None)
      ensures f.target.Some? ==> TargetMoved(old(core.motionEffects), core.effect, f.target.value, f, old(core.Memory()))
      ensures r.Strength? ==> core.CounterRotated(f.target.value, f.engine, old(core.Memory()))
      ensures core.Valid() && core.effect.poses.Keys == old(core.effect.poses.Keys)
    {
      r := core.CalculateMotion(f);
      if r.Strength? {
        DrawIris(r.value);
      }
    }

    /**
     * `LateUpdate`: the mask transition and stencil globals, the motion tick, then the
     * iris material. Afterwards the camera holds exactly the buffers for the current
     * `useMask`, even when the tick is aborted by a null reference; a completed tick
     * returns the effect strength of the channels' new sum and caches this frame's motion.
     */
    method LateUpdate(f: Frame) returns (r: MotionResult)
      requires Valid() && enabled
      modifies this`registry, this`wasUsingMask, this`effectPasses, this`maskBufferObjects
      modifies this`stencilRefGlobal, this`stencilMaskGlobal, this`stencilBiasGlobal
      modifies this`irisInner, this`irisOuter, this`irisColor, this`irisSkybox, this`irisSkyboxKeyword
      modifies core`avSmoothed, core`avSlew, core`speedSmoothed, core`speedSlew, core`accelSmoothed, core`accelSlew
      modifies core`effect
      modifies core`cmRot, core`lastFwd, core`lastPos, core`lastSpeed, core`lastVel, core`lastRot
      ensures registry == BuffersFor(useMask) && wasUsingMask == useMask && effectPasses == EffectPasses(useMask)
      ensures useMask ==>
        stencilRefGlobal == stencilReference && stencilMaskGlobal == stencilMask && stencilBiasGlobal == -stencilBias
      ensures !useMask ==>
        stencilRefGlobal == old(stencilRefGlobal) && stencilMaskGlobal == old(stencilMaskGlobal)
        && stencilBiasGlobal == old(stencilBiasGlobal)
      ensures f.target.None? ==> r == NullReference
      ensures f.target.Some? ==>
        (r.Strength? <==> !DivisionFailsOn(core.motionEffects.motionEffectTarget, f.frameCount, old(core.effect.lastFpsDivision),
                                            core.motionEffects.framerateDivision, core.motionEffects.divideTranslation, core.motionEffects.divideRotation))
      ensures f.target.Some? ==> core.Measured(f.target.value, f, old(core.Memory()))
      ensures r.Strength? ==>
        r.value == EffectStrength(if f.forcedValue.Some? then f.forcedValue.value else core.ChannelTotal(f.engine), core.effectCoverage)
      ensures r.Strength? ==> core.Cached(f.target.value, f, old(core.Memory()))
      ensures r.Strength? ==> irisInner == r.value && irisOuter == r.value - core.effectFeather
      ensures r.Strength? ==> irisColor == IrisColor(drawSkybox, core.applyColorToBackground, core.effectColor)
      ensures r.Strength? ==> irisSkyboxKeyword == drawSkybox && irisSkybox == (if drawSkybox then core.effectSkybox else None)
      ensures f.target.Some? ==> TargetMoved(old(core.motionEffects), core.effect, f.target.value, f, old(core.Memory()))
      ensures r.Strength? ==> core.CounterRotated(f.target.value, f.engine, old(core.Memory()))
      ensures enabled && Valid()
    {
      PrepareMaskAndStencil();
      r := TickMotion(f);
    }

    /** The part of `LateUpdate` before the motion tick: the mask transition, then the stencil globals. */
    method PrepareMaskAndStencil()
      requires Valid() && enabled
      modifies this`registry, this`wasUsingMask, this`effectPasses, this`maskBufferObjects
      modifies this`stencilRefGlobal, this`stencilMaskGlobal, this`stencilBiasGlobal
      ensures registry == BuffersFor(useMask) && wasUsingMask == useMask && effectPasses == EffectPasses(useMask)
      ensures useMask ==>
        stencilRefGlobal == stencilReference && stencilMaskGlobal == stencilMask && stencilBiasGlobal == -stencilBias
      ensures !useMask ==>
        stencilRefGlobal == old(stencilRefGlobal) && stencilMaskGlobal == old(stencilMaskGlobal)
        && stencilBiasGlobal == old(stencilBiasGlobal)
      ensures enabled && Valid()
    {
      PrepareMask();
      SetStencilGlobals();
    }

    /**
     * `ApplyPreset`: the base preset first, then each mobile setting whose override
     * getter is true (`ApplyMobileSettings`).
     */
    method ApplyPreset(p: MobilePreset)
      modifies this`drawSkybox, this`useMask, this`stencilReference, this`stencilMask, this`stencilBias
      modifies core`effectCoverage, core`effectColor, core`effectFeather, core`applyColorToBackground, core`effectSkybox
      modifies core`angularVelocity, core`acceleration, core`velocity
      modifies core`useCounterMotion, core`counterRotationPerAxis, core`motionEffects
      ensures core.BaseSettingsApplied(p.base)
      ensures MobileSettingsApplied(p)
    {
      core.ApplyPresetBase(p.base);
      ApplyMobileSettings(p);
    }

    /**
     * The mobile part of `ApplyPreset`: each setting whose override getter is true is
     * taken from the preset; the preset's integer stencil bias becomes the effect's float
     * bias. The preset's `drawBeforeTransparent` is never read.
     */
    method ApplyMobileSettings(p: MobilePreset)
      modifies this`drawSkybox, this`useMask, this`stencilReference, this`stencilMask, this`stencilBias
      ensures MobileSettingsApplied(p)
    {
      if p.OverrideDrawSkybox() { drawSkybox := p.drawSkybox; }
      if p.OverrideUseMask() { useMask := p.useMask; }
      if p.OverrideStencilReference() { stencilReference := p.stencilReference; }
      if p.OverrideStencilMask() { stencilMask := p.stencilMask; }
      if p.OverrideStencilBias() { stencilBias := p.stencilBias as real; }
    }

    /** Each mobile setting is the preset's when overridden and unchanged otherwise. */
    twostate predicate MobileSettingsApplied(p: MobilePreset)
      reads this`drawSkybox, this`useMask, this`stencilReference, this`stencilMask, this`stencilBias
    {
      && drawSkybox == (if p.OverrideDrawSkybox() then p.drawSkybox else old(drawSkybox))
      && useMask == (if p.OverrideUseMask() then p.useMask else old(useMask))
      && stencilReference == (if p.OverrideStencilReference() then p.stencilReference else old(stencilReference))
      && stencilMask == (if p.OverrideStencilMask() then p.stencilMask else old(stencilMask))
      && stencilBias == (if p.OverrideStencilBias() then p.stencilBias as real else old(stencilBias))
    }

    /** `AddObjectToMask`: the list grows and the mask buffer is rebuilt from it. */
    method AddObjectToMask(r: ObjectId, inChildren: seq<ObjectId>, includeChildren: bool)
      requires Valid()
      modifies masks, this`maskBufferObjects
      ensures Valid() && masks.items == old(masks.items) + Listed(r, inChildren, includeChildren)
    {
      masks.Add(r, inChildren, includeChildren);
      ResetMaskCommandBuffer();
    }

    /** `RemoveObjectFromMask`: first occurrences are removed and the mask buffer is rebuilt. */
    method RemoveObjectFromMask(r: ObjectId, inChildren: seq<ObjectId>, includeChildren: bool)
      requires Valid()
      modifies masks, this`maskBufferObjects
      ensures Valid() && masks.items == RemoveEach(old(masks.items), Listed(r, inChildren, includeChildren))
    {
      masks.Remove(r, inChildren, includeChildren);
      ResetMaskCommandBuffer();
    }
  }

  /**
   * Start-up as written with `useMask` set: enabling registers the mask buffer, and the
   * first `LateUpdate` sees `wasUsingMask` still false, removes the depth-reject and
   * effect buffers and adds the mask buffer again. It is then registered twice.
   */
  method StartUpWithMaskAsWritten(scene: map<ObjectId, LocalPose>, t: TargetReading) returns (maskRegistrations: nat)
    ensures maskRegistrations == 2
  {
    var m := new MobileEffect(scene, true);
    var _ := m.OnEnableAsWritten(Some(t));
    m.UpdateMaskState();
    maskRegistrations := m.registry[Registration(FX_EVENT, Mask)];
  }

  /**
   * Disabling as written after `useMask` was switched on since the last `LateUpdate`:
   * the depth-reject buffer registered for the old state stays on the disabled camera.
   */
  method DisableAfterMaskChangeAsWritten(scene: map<ObjectId, LocalPose>, t: TargetReading)
    returns (enabled: bool, depthRejectRegistrations: nat)
    ensures !enabled && depthRejectRegistrations == 1
  {
    var m := new MobileEffect(scene, false);
    var _ := m.OnEnable(Some(t));
    m.useMask := true;
    m.OnDisableAsWritten();
    enabled := m.enabled;
    depthRejectRegistrations := m.registry[Registration(Z_EVENT, ZReject)];
  }
}
