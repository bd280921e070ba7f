/**
 * The image-effect backend: the vignette is drawn by a full-screen shader whose
 * background is a colour, a skybox, a rendered "cage" or a blur of the view, optionally
 * shaped by mask objects. Without a mask (and with an opaque colour and no blur or
 * overlay) an iris mesh fills the depth buffer of the periphery before opaque geometry.
 *
 * The component keeps two command buffers on its camera, the mask buffer and the iris
 * buffer, and remembers whether each is registered. `Valid` states that the camera holds
 * exactly what those flags say, nothing while disabled, and while enabled the iris is
 * registered exactly when it was last found drawable. As written, enabling registers
 * the iris without recording that, and disabling only removes it while it is still
 * drawable; the `...AsWritten` members model that and the lifecycle members model the
 * intended behaviour.
 */
module Image {
  import opened UnityMath
  import opened Modes
  import opened Cameras
  import opened Presets
  import opened ImagePresets
  import opened Motion
  import opened MaskObjects
  import opened ImagePolicy
  import opened RenderTextures

  /** The iris is drawn a little inside the image effect's aperture. */
  const IRIS_SCALE: real := 0.98

  /** The local position the cage returns to on a reset: the one it had at start-up, or the origin without a cage. */
  function InitialCagePosition(cageParent: Option<ObjectId>, cagePose: LocalPose): Vec3 {
    if cageParent.Some? then cagePose.localPosition else Zero3
  }

  /** The counter-motion state of the image backend: the base counter-rotation, the cage root's local pose and the counter-velocity offset. */
  datatype CounterState = CounterState(cmRot: Quat, cage: LocalPose, cmPos: Vec3)

  /**
   * The image backend's `UpdateCounterMotion` on `s` for a frame that moved by
   * `deltaPos` and turned by `deltaRot`, and whether it got past the cage. The base
   * counter-rotation accumulates first; without a cage nothing else changes and the
   * update fails. With one the cage turns against the frame's counter-rotation and,
   * with the counter-velocity on, the scaled motion is added to the offset in the
   * cage's space (SHADER, `cageInverse` being the just-rotated cage's
   * `InverseTransformVector`) or the motion target's (REAL). Only REAL mode moves the
   * cage, and it moves it to the offset.
   */
  function CounterMoved(s: CounterState, rotStrength: real, rotPerAxis: Vec3, cv: CounterVelocitySettings, hasCage: bool,
                        deltaPos: Vec3, deltaRot: Quat, t: TargetReading, cageInverse: Vec3 -> Vec3, e: Engine): (bool, CounterState)
  {
    var q := CounterRotationDelta(deltaRot, rotPerAxis, rotStrength, e);
    var cmRot := if rotStrength > 0.0 then e.mul(q, s.cmRot) else s.cmRot;
    if !hasCage then (false, s.(cmRot := cmRot))
    else
      var cage := s.cage.(localRotation := e.mul(s.cage.localRotation, e.euler(e.eulerAngles(q).Negated())));
      if !(cv.strength > 0.0 && cv.mode != CounterVelocityMode.OFF) then (true, CounterState(cmRot, cage, s.cmPos))
      else
        var d := CounterVelocityStep(deltaPos, cv.perAxis, cv.strength);
        if cv.mode == CounterVelocityMode.SHADER then (true, CounterState(cmRot, cage, s.cmPos.Plus(cageInverse(d))))
        else
          assert cv.mode == CounterVelocityMode.REAL;
          var p := s.cmPos.Plus(t.inverseTransformVector(d));
          (true, CounterState(cmRot, cage.(localPosition := p), p))
  }

  /**
   * The counter-motion part of a tick that measured `t` against `prev`: unchanged
   * while counter-motion is off, otherwise `CounterMoved` for the motion since `prev`.
   */
  function CounterTicked(useCounterMotion: bool, s: CounterState, rotStrength: real, rotPerAxis: Vec3, cv: CounterVelocitySettings,
                         hasCage: bool, t: TargetReading, cageInverse: Vec3 -> Vec3, f: Frame, prev: TickMemory): (bool, CounterState)
  {
    if !useCounterMotion then (true, s)
    else CounterMoved(s, rotStrength, rotPerAxis, cv, hasCage, t.position.Minus(prev.lastPos),
                      f.engine.mul(f.engine.inverse(t.rotation), prev.lastRot), t, cageInverse, f.engine)
  }

  /**
   * What `UpdateCounterMotion` promises: it fails exactly without a cage, and then only
   * the counter-rotation changes; the counter-rotation grows only with a positive
   * strength; the offset moves only with the counter-velocity on; and only REAL mode
   * moves the cage, which it puts at the offset.
   */
  lemma CounterMotionMovesCageOnlyInReal(s: CounterState, rotStrength: real, rotPerAxis: Vec3, cv: CounterVelocitySettings, hasCage: bool,
                                         deltaPos: Vec3, deltaRot: Quat, t: TargetReading, cageInverse: Vec3 -> Vec3, e: Engine)
    ensures var (ok, r) := CounterMoved(s, rotStrength, rotPerAxis, cv, hasCage, deltaPos, deltaRot, t, cageInverse, e);
      && (ok <==> hasCage)
      && r.cmRot == (if rotStrength > 0.0 then e.mul(CounterRotationDelta(deltaRot, rotPerAxis, rotStrength, e), s.cmRot) else s.cmRot)
      && (!hasCage ==> r.cage == s.cage && r.cmPos == s.cmPos)
      && (cv.mode == CounterVelocityMode.OFF || cv.strength <= 0.0 ==> r.cmPos == s.cmPos)
      && (hasCage && cv.mode == CounterVelocityMode.REAL && cv.strength > 0.0 ==> r.cage.localPosition == r.cmPos)
      && (!(hasCage && cv.mode == CounterVelocityMode.REAL && cv.strength > 0.0) ==> r.cage.localPosition == s.cage.localPosition)
  {
  }

  /** `ResetCounterMotion` on `s`: no counter-rotation, no offset, and a cage back at `initial`. */
  function CounterReset(s: CounterState, hasCage: bool, initial: Vec3): (r: CounterState)
    ensures r.cmRot == IdentityQuat && r.cmPos == Zero3 && r.cage.localRotation == s.cage.localRotation
    ensures r.cage.localPosition == if hasCage then initial else s.cage.localPosition
  {
    CounterState(IdentityQuat, if hasCage then s.cage.(localPosition := initial) else s.cage, Zero3)
  }

  /**
   * The counter-velocity check of `LateUpdate` on `s`: reset when
   * `CounterVelocityResetDue` says so for the last mode acted upon, the time and the
   * deadline, otherwise unchanged. In REAL mode the offset is afterwards inside the
   * reset distance unless it was just reset to zero, and a mode change always resets.
   */
  function CounterChecked(s: CounterState, cv: CounterVelocitySettings, lastMode: CounterVelocityMode, time: real, deadline: real,
                          hasCage: bool, initial: Vec3): (r: CounterState)
    ensures lastMode != cv.mode ==> r == CounterReset(s, hasCage, initial)
    ensures cv.mode == CounterVelocityMode.REAL ==> r.cmPos == Zero3 || !BeyondResetDistance(r.cmPos, cv.resetDistance)
    ensures r == s || r == CounterReset(s, hasCage, initial)
  {
    if CounterVelocityResetDue(lastMode, cv, time, deadline, s.cmPos)
    then CounterReset(s, hasCage, initial)
    else s
  }

  /** The deadline of the next timed counter-velocity reset after the check at `time`. */
  function NextResetDeadline(cv: CounterVelocitySettings, time: real, deadline: real): real {
    if cv.mode == CounterVelocityMode.REAL && cv.resetTime > 0.0 && time >= deadline then time + cv.resetTime else deadline
  }

  class ImageEffect {
    const core: MotionCore
    const masks: MaskList
    /** The blur kernel's sample offsets (`_blurOffsets`, three entries). */
    const blurOffsets: array<Vec4>
    /** Where the mask buffer runs; the concrete component chooses it. */
    const maskEvent: CameraEvent
    /** The cage's root object, if one is set. */
    const cageParent: Option<ObjectId>

    // Serialized settings.
    var backgroundMode: BackgroundMode
    var effectOverlay: real
    var cageDownsample: int
    var cageAntiAliasing: Msaa
    var cageUpdateEveryFrame: bool
    var cageFogDensity: real
    var cageFogPower: real
    var cageFogBlend: real
    var maskMode: MaskMode
    var blurDownsample: int
    var blurDistance: real
    var blurPasses: int
    var blurSamples: BlurKernel
    var irisZRejection: bool
    var counterVelocity: CounterVelocitySettings

    /** The cage root's local pose (meaningful when `cageParent` is set). */
    var cagePose: LocalPose
    var cageInitialPosLocal: Vec3

    // Cached state.
    var lastMaskMode: MaskMode
    var lastBlurRadius: real
    var lastBlurKernel: BlurKernel
    var wasDrawingIrisEarly: bool
    var lastCvMode: CounterVelocityMode
    /** The accumulated counter-velocity offset. */
    var cmPos: Vec3
    var timeToResetCounterVelocity: real

    /**
     * The camera's registrations of the two buffers the component owns: the mask buffer
     * at `maskEvent` and the iris buffer before opaque geometry. `AddCommandBuffer` adds
     * one, `RemoveCommandBuffer` removes them all.
     */
    var maskRegistrations: nat
    var irisRegistrations: nat
    var camHasMask: bool
    var camHasIris: bool
    /** `isActiveAndEnabled`. */
    var enabled: bool
    /** The mask buffer has been created. */
    var maskCmdExists: bool
    /** The renderers the mask buffer draws (its contents are rebuilt from the list). */
    var maskBufferObjects: seq<ObjectId>

    /** The render textures and what they were last made for. */
    var textures: Textures

    // Material state.
    var keywords: Keywords
    var tunnel: TunnelMaterial
    var irisAperture: Aperture

    /**
     * The camera holds the mask buffer and the iris buffer exactly as the flags say and
     * the mask buffer only once it exists; a disabled component has nothing registered;
     * an enabled one has the iris registered exactly when it was last found drawable.
     */
    predicate CameraValid()
      reads this`maskRegistrations, this`irisRegistrations, this`camHasMask, this`camHasIris, this`maskCmdExists, this`enabled, this`wasDrawingIrisEarly
    {
      MaskRegistrationValid()
      && irisRegistrations == Registrations(camHasIris)
      && (!enabled ==> !camHasMask && !camHasIris)
      && (enabled ==> camHasIris == wasDrawingIrisEarly)
    }

    /** The mask buffer is registered once exactly when the flag says so, and only once it exists. */
    predicate MaskRegistrationValid()
      reads this`maskRegistrations, this`camHasMask, this`maskCmdExists
    {
      maskRegistrations == Registrations(camHasMask) && (camHasMask ==> maskCmdExists)
    }

    /** The motion core is consistent and so is this component's own state. */
    predicate Valid()
      reads core`motionEffects, core`effect
      reads this`maskCmdExists, this`maskBufferObjects, masks`items
      reads this`maskRegistrations, this`irisRegistrations, this`camHasMask, this`camHasIris, this`enabled, this`wasDrawingIrisEarly
    {
      core.Valid() && EffectValid()
    }

    /** The camera is consistent and the mask buffer draws the listed renderers. */
    predicate EffectValid()
      reads this`maskCmdExists, this`maskBufferObjects, masks`items
      reads this`maskRegistrations, this`irisRegistrations, this`camHasMask, this`camHasIris, this`enabled, this`wasDrawingIrisEarly
    {
      blurOffsets.Length == 3
      && (maskCmdExists ==> maskBufferObjects == masks.items)
      && CameraValid()
    }

    /** `_drawIris` for the current settings. */
    predicate DrawIris()
      reads this`irisZRejection, this`maskMode, this`backgroundMode, core`effectColor
    {
      DrawsIris(irisZRejection, maskMode, backgroundMode, core.effectColor.a)
    }

    /**
     * A disabled component after `Awake` in a scene with the given Transforms, a cage
     * root (if any) with its local pose and the event the concrete component draws the
     * mask at.
     */
    constructor (scene: map<ObjectId, LocalPose>, cageParent: Option<ObjectId>, cagePose: LocalPose, maskEvent: CameraEvent)
      ensures Valid() && fresh(core) && fresh(masks) && fresh(blurOffsets)
      ensures !enabled && maskRegistrations == 0 && irisRegistrations == 0 && !maskCmdExists && !wasDrawingIrisEarly
      ensures this.cageParent == cageParent && this.cagePose == cagePose && this.maskEvent == maskEvent
      ensures cageInitialPosLocal == InitialCagePosition(cageParent, cagePose)
      ensures backgroundMode == BackgroundMode.COLOR && maskMode == MaskMode.OFF && irisZRejection
      ensures counterVelocity.mode == CounterVelocityMode.OFF && lastCvMode == CounterVelocityMode.OFF
      ensures lastMaskMode == MaskMode.OFF && cmPos == Zero3
      ensures keywords == KeywordsFor(maskMode, backgroundMode) && core.effectColor == Black
      ensures cageDownsample == 0 && cageAntiAliasing == Msaa.AUTO && blurDownsample == 3
      ensures textures == NoTextures
    {
      core := new MotionCore(scene);
      masks := new MaskList();
      blurOffsets := new Vec4[3](_ => Vec4(0.0, 0.0, 0.0, 0.0));
      this.maskEvent := maskEvent;
      this.cageParent := cageParent;
      backgroundMode, effectOverlay := BackgroundMode.COLOR, 0.0;
      cageDownsample, cageAntiAliasing, cageUpdateEveryFrame := 0, Msaa.AUTO, false;
      cageFogDensity, cageFogPower, cageFogBlend := 0.01, 2.0, 1.0;
      maskMode := MaskMode.OFF;
      blurDownsample, blurDistance, blurPasses, blurSamples := 3, 3.0, 3, BlurKernel.FIVE;
      irisZRejection := true;
      counterVelocity := CounterVelocitySettings(CounterVelocityMode.OFF, 0.0, 0.0, 1.0, One3);
      this.cagePose := cagePose;
      cageInitialPosLocal := InitialCagePosition(cageParent, cagePose);
      lastMaskMode, lastBlurRadius, lastBlurKernel := MaskMode.OFF, 0.0, BlurKernel.FIVE;
      wasDrawingIrisEarly, lastCvMode, cmPos, timeToResetCounterVelocity := false, CounterVelocityMode.OFF, Zero3, 0.0;
      maskRegistrations, irisRegistrations, camHasMask, camHasIris, enabled := 0, 0, false, false, false;
      maskCmdExists, maskBufferObjects := false, [];
      textures := NoTextures;
      keywords := KeywordsFor(MaskMode.OFF, BackgroundMode.COLOR);
      tunnel := TunnelMaterial(0.0, 0.0, 0.0, Black, None, None);
      irisAperture := Aperture(0.0, 0.0);
      new;
    }

    /** `UpdateKeywords`: the tunnel material's keywords follow the mask and background modes. */
    method UpdateKeywords()
      modifies this`keywords
      ensures keywords == KeywordsFor(maskMode, backgroundMode)
    {
      keywords := KeywordsFor(maskMode, backgroundMode);
    }

    /** `ToggleMaskCommandBuffer`: add the mask buffer at its event, or remove it. */
    method ToggleMaskCommandBuffer(on: bool)
      modifies this`maskRegistrations, this`camHasMask
      ensures camHasMask == on
      ensures maskRegistrations == if on then old(maskRegistrations) + 1 else 0
    {
      if on {
        maskRegistrations := maskRegistrations + 1;
      } else {
        maskRegistrations := 0;
      }
      camHasMask := on;
    }

    /** `ToggleIrisCommandBuffer`: add the iris buffer before opaque geometry, or remove it. */
    method ToggleIrisCommandBuffer(on: bool)
      modifies this`irisRegistrations, this`camHasIris
      ensures camHasIris == on
      ensures irisRegistrations == if on then old(irisRegistrations) + 1 else 0
    {
      if on {
        irisRegistrations := irisRegistrations + 1;
      } else {
        irisRegistrations := 0;
      }
      camHasIris := on;
    }

    /**
     * `ResetMaskCommandBuffer`: the mask buffer is created if needed and rebuilt from
     * the list, then registered or removed as `MaskTransition` says.
     */
    method ResetMaskCommandBuffer()
      requires MaskRegistrationValid()
      modifies this`maskCmdExists, this`maskBufferObjects, this`maskRegistrations, this`camHasMask, this`lastMaskMode
      ensures maskCmdExists && maskBufferObjects == masks.items
      ensures MaskState(camHasMask, lastMaskMode) == MaskTransition(enabled, MaskState(old(camHasMask), old(lastMaskMode)), maskMode)
      ensures !enabled ==> !camHasMask
      ensures MaskRegistrationValid()
    {
      maskCmdExists := true;
      maskBufferObjects := masks.items;
      if enabled {
        if lastMaskMode == MaskMode.OFF && UsingMask(maskMode) && !camHasMask {
          ToggleMaskCommandBuffer(true);
        } else if lastMaskMode != MaskMode.OFF && !UsingMask(maskMode) && camHasMask {
          ToggleMaskCommandBuffer(false);
        }
        lastMaskMode := maskMode;
      } else if camHasMask {
        ToggleMaskCommandBuffer(false);
      }
    }

    /** `AddObjectToMask`: the renderer and, when asked, what `GetComponentsInChildren` returns for it (itself included) join the list, then the mask buffer is reset. */
    method AddObjectToMask(r: ObjectId, inChildren: seq<ObjectId>, includeChildren: bool)
      requires Valid()
      modifies masks, this`maskCmdExists, this`maskBufferObjects, this`maskRegistrations, this`camHasMask, this`lastMaskMode
      ensures masks.items == old(masks.items) + Listed(r, inChildren, includeChildren)
      ensures maskBufferObjects == masks.items
      ensures MaskState(camHasMask, lastMaskMode) == MaskTransition(enabled, MaskState(old(camHasMask), old(lastMaskMode)), maskMode)
      ensures Valid()
    {
      masks.Add(r, inChildren, includeChildren);
      ResetMaskCommandBuffer();
    }

    /** `RemoveObjectFromMask`: one occurrence of each renderer of that list leaves it, then the mask buffer is reset. */
    method RemoveObjectFromMask(r: ObjectId, inChildren: seq<ObjectId>, includeChildren: bool)
      requires Valid()
      modifies masks, this`maskCmdExists, this`maskBufferObjects, this`maskRegistrations, this`camHasMask, this`lastMaskMode
      ensures masks.items == RemoveEach(old(masks.items), Listed(r, inChildren, includeChildren))
      ensures maskBufferObjects == masks.items
      ensures MaskState(camHasMask, lastMaskMode) == MaskTransition(enabled, MaskState(old(camHasMask), old(lastMaskMode)), maskMode)
      ensures Valid()
    {
      masks.Remove(r, inChildren, includeChildren);
      ResetMaskCommandBuffer();
    }

    /**
     * `ResetCounterMotion` (override): the base reset of the counter-rotation, the
     * counter-velocity offset cleared and the cage returned to its initial local position.
     */
    method ResetCounterMotion(t: TargetReading)
      modifies core`cmRot, core`lastRot, this`cmPos, this`cagePose
      ensures core.cmRot == IdentityQuat && core.lastRot == t.rotation && cmPos == Zero3
      ensures cagePose == if cageParent.Some? then old(cagePose).(localPosition := cageInitialPosLocal) else old(cagePose)
    {
      core.ResetCounterMotion(t);
      cmPos := Zero3;
      if cageParent.Some? {
        cagePose := cagePose.(localPosition := cageInitialPosLocal);
      }
    }

    /**
     * `UpdateCounterMotion` (override). The base part accumulates the counter-rotation;
     * then the cage is rotated against this frame's rotation, which dereferences the
     * cage (`ok` is false without one). With a positive strength and a mode other than
     * OFF the motion, scaled per axis and by the strength, is accumulated in the cage's
     * space (SHADER) or the motion target's (REAL), and REAL mode moves the cage there.
     * `cageInverseTransformVector` is the cage's `InverseTransformVector` after the
     * rotation just applied to it, which is the transform SHADER mode reads; it is a
     * parameter because the cage's world transform is not part of this model.
     */
    method UpdateCounterMotion(deltaPos: Vec3, deltaRot: Quat, t: TargetReading, cageInverseTransformVector: Vec3 -> Vec3, e: Engine)
      returns (ok: bool)
      modifies core`cmRot, this`cagePose, this`cmPos
      ensures (ok, CounterState(core.cmRot, cagePose, cmPos)) ==
        CounterMoved(old(CounterState(core.cmRot, cagePose, cmPos)),
                     core.counterRotationStrength, core.counterRotationPerAxis, counterVelocity, cageParent.Some?,
                     deltaPos, deltaRot, t, cageInverseTransformVector, e)
    {
      core.UpdateCounterMotion(deltaRot, e);
      var q := CounterRotationDelta(deltaRot, core.counterRotationPerAxis, core.counterRotationStrength, e);
      if cageParent.None? {
        return false;
      }
      cagePose := cagePose.(localRotation := e.mul(cagePose.localRotation, e.euler(e.eulerAngles(q).Negated())));
      if counterVelocity.strength > 0.0 && counterVelocity.mode != CounterVelocityMode.OFF {
        var d := CounterVelocityStep(deltaPos, counterVelocity.perAxis, counterVelocity.strength);
        if counterVelocity.mode == CounterVelocityMode.SHADER {
          cmPos := cmPos.Plus(cageInverseTransformVector(d));
        } else {
          cmPos := cmPos.Plus(t.inverseTransformVector(d));
          cagePose := cagePose.(localPosition := cmPos);
        }
      }
      ok := true;
    }

    /**
     * The counter-motion of a tick with this component's override: the override above
     * when counter-motion is on, for the motion since `prev`; it needs the cage.
     */
    method ApplyCounterMotion(t: TargetReading, deltaPos: Vec3, f: Frame, cageInverseTransformVector: Vec3 -> Vec3, ghost prev: TickMemory)
      returns (ok: bool)
      requires deltaPos == t.position.Minus(prev.lastPos) && prev.lastRot == core.lastRot
      modifies core`cmRot, this`cagePose, this`cmPos
      ensures ok <==> !core.useCounterMotion || cageParent.Some?
      ensures (ok, CounterState(core.cmRot, cagePose, cmPos)) ==
        CounterTicked(core.useCounterMotion, old(CounterState(core.cmRot, cagePose, cmPos)),
                      core.counterRotationStrength, core.counterRotationPerAxis, counterVelocity, cageParent.Some?,
                      t, cageInverseTransformVector, f, prev)
    {
      ok := true;
      if core.useCounterMotion {
        ok := UpdateCounterMotion(deltaPos, f.engine.mul(f.engine.inverse(t.rotation), core.lastRot), t, cageInverseTransformVector, f.engine);
      }
    }

    /**
     * The end of a tick with this component's counter-motion: `ApplyCounterMotion`, which
     * needs the cage when counter-motion is on; then this frame's motion is cached.
     */
    method FinishTick(t: TargetReading, sample: MotionSample, f: Frame, cageInverseTransformVector: Vec3 -> Vec3, ghost prev: TickMemory)
      returns (ok: bool)
      requires core.Sampled(t, f, prev, sample) && prev.lastRot == core.lastRot
      modifies core`cmRot, core`lastFwd, core`lastPos, core`lastSpeed, core`lastVel, core`lastRot
      modifies this`cagePose, this`cmPos
      ensures ok <==> !core.useCounterMotion || cageParent.Some?
      ensures (ok, CounterState(core.cmRot, cagePose, cmPos)) ==
        CounterTicked(core.useCounterMotion, old(CounterState(core.cmRot, cagePose, cmPos)),
                      core.counterRotationStrength, core.counterRotationPerAxis, counterVelocity, cageParent.Some?,
                      t, cageInverseTransformVector, f, prev)
      ensures core.Sampled(t, f, prev, sample)
      ensures ok ==> core.Cached(t, f, prev)
    {
      ok := ApplyCounterMotion(t, sample.dPos, f, cageInverseTransformVector, prev);
      if !ok {
        return;
      }
      core.CacheMotion(t, sample);
    }

    /**
     * The end of a tick with this component's counter-motion: `FinishTick`, then the
     * strength for the sample, which the measuring part took against `prev`.
     */
    method Conclude(t: TargetReading, sample: MotionSample, f: Frame, cageInverseTransformVector: Vec3 -> Vec3, ghost prev: TickMemory)
      returns (r: MotionResult)
      requires core.Sampled(t, f, prev, sample) && prev.lastRot == core.lastRot && EffectValid()
      modifies core`cmRot, core`lastFwd, core`lastPos, core`lastSpeed, core`lastVel, core`lastRot
      modifies this`cagePose, this`cmPos
      ensures r.Strength? <==> !core.useCounterMotion || cageParent.Some?
      ensures (r.Strength?, CounterState(core.cmRot, cagePose, cmPos)) ==
        CounterTicked(core.useCounterMotion, old(CounterState(core.cmRot, cagePose, cmPos)),
                      core.counterRotationStrength, core.counterRotationPerAxis, counterVelocity, cageParent.Some?,
                      t, cageInverseTransformVector, f, prev)
      ensures core.TickOutcome(t, f, prev, r)
      ensures EffectValid()
    {
      var ok := FinishTick(t, sample, f, cageInverseTransformVector, prev);
      if !ok {
        return NullReference;
      }
      var fx := if f.forcedValue.Some? then f.forcedValue.value else sample.channelSum;
      return Strength(EffectStrength(fx, core.effectCoverage));
    }

    /** A tick whose motion target is present: the base measuring and moving, then `Conclude`. */
    method TrackTarget(t: TargetReading, f: Frame, cageInverseTransformVector: Vec3 -> Vec3) returns (r: MotionResult)
      requires core.Valid() && EffectValid()
      modifies core`avSmoothed, core`avSlew, core`speedSmoothed, core`speedSlew, core`accelSmoothed, core`accelSlew
      modifies core`effect
      modifies core`cmRot, core`lastFwd, core`lastPos, core`lastSpeed, core`lastVel, core`lastRot
      modifies this`cagePose, this`cmPos
      ensures r.Strength? <==> !DivisionFailsOn(core.motionEffects.motionEffectTarget, f.frameCount, old(core.effect.lastFpsDivision),
                                                 core.motionEffects.framerateDivision, core.motionEffects.divideTranslation, core.motionEffects.divideRotation)
                               && (core.useCounterMotion ==> cageParent.Some?)
      ensures core.TickOutcome(t, f, old(core.Memory()), r)
      ensures TargetMoved(old(core.motionEffects), core.effect, t, f, old(core.Memory()))
      ensures CounterState(core.cmRot, cagePose, cmPos) ==
        if DivisionFailsOn(core.motionEffects.motionEffectTarget, f.frameCount, old(core.effect.lastFpsDivision),
                          core.motionEffects.framerateDivision, core.motionEffects.divideTranslation, core.motionEffects.divideRotation)
        then old(CounterState(core.cmRot, cagePose, cmPos))
        else CounterTicked(core.useCounterMotion, old(CounterState(core.cmRot, cagePose, cmPos)),
                           core.counterRotationStrength, core.counterRotationPerAxis, counterVelocity, cageParent.Some?,
                           t, cageInverseTransformVector, f, old(core.Memory())).1
      ensures core.Valid() && core.effect.poses.Keys == old(core.effect.poses.Keys)
      ensures EffectValid()
    {
      ghost var prev := core.Memory();
      var sample, ok := core.MeasureAndMove(t, f);
      if !ok {
        return NullReference;
      }
      r := Conclude(t, sample, f, cageInverseTransformVector, prev);
    }

    /**
     * `CalculateMotion` with this component's counter-motion: the base tick, with the
     * override above in place of the base counter-motion. A null motion target aborts
     * before anything changes; a null motion-effect target that framerate division needs,
     * or a missing cage while counter-motion is on, aborts part-way, after the channels
     * were smoothed. A completed tick returns `EffectStrength` of the forced value or of
     * the channels' new sum, and caches this frame's motion.
     */
    method CalculateMotion(f: Frame, cageInverseTransformVector: Vec3 -> Vec3) returns (r: MotionResult)
      requires Valid()
      modifies core`avSmoothed, core`avSlew, core`speedSmoothed, core`speedSlew, core`accelSmoothed, core`accelSlew
      modifies core`effect
      modifies core`cmRot, core`lastFwd, core`lastPos, core`lastSpeed, core`lastVel, core`lastRot
      modifies this`cagePose, this`cmPos
      ensures f.target.None? ==> r == NullReference && unchanged(core) && cagePose == old(cagePose) && cmPos == old(cmPos)
      ensures f.target.Some? ==>
        (r.Strength? <==> !DivisionFailsOn(core.motionEffects.motionEffectTarget, f.frameCount, old(core.effect.lastFpsDivision),
                                            core.motionEffects.framerateDivision, core.motionEffects.divideTranslation, core.motionEffects.divideRotation)
                          && (core.useCounterMotion ==> cageParent.Some?))
      ensures f.target.Some? ==> core.TickOutcome(f.target.value, f, old(core.Memory()), r)
      ensures f.target.Some? ==> TargetMoved(old(core.motionEffects), core.effect, f.target.value, f, old(core.Memory()))
      ensures f.target.Some? ==>
        CounterState(core.cmRot, cagePose, cmPos) ==
          if DivisionFailsOn(core.motionEffects.motionEffectTarget, f.frameCount, old(core.effect.lastFpsDivision),
                             core.motionEffects.framerateDivision, core.motionEffects.divideTranslation, core.motionEffects.divideRotation)
          then old(CounterState(core.cmRot, cagePose, cmPos))
          else CounterTicked(core.useCounterMotion, old(CounterState(core.cmRot, cagePose, cmPos)),
                             core.counterRotationStrength, core.counterRotationPerAxis, counterVelocity, cageParent.Some?,
                             f.target.value, cageInverseTransformVector, f, old(core.Memory())).1
      ensures Valid() && core.effect.poses.Keys == old(core.effect.poses.Keys)
    {
      if f.target.None? {
        return NullReference;
      }
      r := TrackTarget(f.target.value, f, cageInverseTransformVector);
    }

    /** The tunnel material part of `LateUpdate`, as `TunnelMaterialFor` states it. */
    method SetTunnelMaterial(motion: real)
      modifies this`tunnel
      ensures tunnel == TunnelMaterialFor(old(tunnel), motion, core.effectFeather, effectOverlay, backgroundMode,
                                          core.applyColorToBackground, core.effectColor, core.effectSkybox)
    {
      var m := tunnel.(inner := motion, outer := motion - core.effectFeather, overlay := effectOverlay);
      m := m.(color := TunnelColor(backgroundMode, core.applyColorToBackground, core.effectColor, tunnel.color));
      if backgroundMode == BackgroundMode.SKYBOX {
        m := m.(skybox := core.effectSkybox);
      } else if backgroundMode == BackgroundMode.CAGE_SKYBOX {
        m := m.(skysphereSkybox := core.effectSkybox);
      }
      tunnel := m;
    }

    /** The mask part of `LateUpdate`: the mask buffer is reset when the mode changed since it was last acted upon. */
    method UpdateMaskState()
      requires CameraValid()
      modifies this`maskCmdExists, this`maskBufferObjects, this`maskRegistrations, this`camHasMask, this`lastMaskMode
      ensures old(lastMaskMode) != maskMode ==>
        MaskState(camHasMask, lastMaskMode) == MaskTransition(enabled, MaskState(old(camHasMask), old(lastMaskMode)), maskMode)
        && maskCmdExists && maskBufferObjects == masks.items
      ensures old(lastMaskMode) == maskMode ==>
        camHasMask == old(camHasMask) && lastMaskMode == old(lastMaskMode) && maskRegistrations == old(maskRegistrations)
        && maskCmdExists == old(maskCmdExists) && maskBufferObjects == old(maskBufferObjects)
      ensures enabled ==> MaskState(camHasMask, lastMaskMode) == MaskUpdate(old(MaskState(camHasMask, lastMaskMode)), maskMode)
      ensures CameraValid()
    {
      if lastMaskMode != maskMode {
        ResetMaskCommandBuffer();
      }
    }

    /**
     * `UpdateBlurKernel`: without a blur texture nothing happens; otherwise the kernel's
     * sample offsets are recomputed from the texel size and radius, and the kernel and
     * radius they were computed for are cached.
     */
    method UpdateBlurKernel(e: Engine)
      requires blurOffsets.Length == 3
      modifies blurOffsets, this`lastBlurRadius, this`lastBlurKernel
      ensures BlurKernelUpdated(e)
    {
      if textures.blur0.None? {
        return;
      }
      var ts := e.texelSize(textures.blur0.value.width, textures.blur0.value.height);
      var fs := BlurFactors(blurSamples);
      var i := 0;
      while i < |fs|
        invariant 0 <= i <= |fs| <= 3
        invariant forall j :: 0 <= j < i ==> blurOffsets[j] == BlurOffset(old(blurOffsets[j]), ts, blurDistance, fs[j])
        invariant forall j :: i <= j < 3 ==> blurOffsets[j] == old(blurOffsets[j])
      {
        blurOffsets[i] := BlurOffset(blurOffsets[i], ts, blurDistance, fs[i]);
        i := i + 1;
      }
      lastBlurRadius := blurDistance;
      lastBlurKernel := blurSamples;
    }

    /**
     * What `UpdateBlurKernel` does: without a blur texture nothing changes; with one,
     * offset `i` of the current kernel gets its horizontal and vertical distance, the
     * offsets the kernel does not use are kept, and the kernel and radius are cached.
     */
    twostate predicate BlurKernelUpdated(e: Engine)
      reads this, blurOffsets
    {
      blurOffsets.Length == 3
      && if textures.blur0.None? then
           unchanged(blurOffsets) && lastBlurRadius == old(lastBlurRadius) && lastBlurKernel == old(lastBlurKernel)
         else
           var ts := e.texelSize(textures.blur0.value.width, textures.blur0.value.height);
           var fs := BlurFactors(blurSamples);
           lastBlurRadius == blurDistance && lastBlurKernel == blurSamples
           && (forall i :: 0 <= i < |fs| ==> blurOffsets[i] == BlurOffset(old(blurOffsets[i]), ts, blurDistance, fs[i]))
           && (forall i :: |fs| <= i < 3 ==> blurOffsets[i] == old(blurOffsets[i]))
    }

    /**
     * The blur part of `LateUpdate`: the kernel is recomputed when it is stale. Once
     * recomputed with a blur texture present it is not stale any more, so an unchanged
     * setting does not recompute it on the next tick.
     */
    method RefreshBlurKernel(e: Engine)
      requires blurOffsets.Length == 3
      modifies blurOffsets, this`lastBlurRadius, this`lastBlurKernel
      ensures old(BlurKernelStale(lastBlurKernel, blurSamples, lastBlurRadius, blurDistance, e)) ==> BlurKernelUpdated(e)
      ensures !old(BlurKernelStale(lastBlurKernel, blurSamples, lastBlurRadius, blurDistance, e)) ==>
        unchanged(blurOffsets) && lastBlurRadius == old(lastBlurRadius) && lastBlurKernel == old(lastBlurKernel)
      ensures textures.blur0.Some? ==> !BlurKernelStale(lastBlurKernel, blurSamples, lastBlurRadius, blurDistance, e)
    {
      if BlurKernelStale(lastBlurKernel, blurSamples, lastBlurRadius, blurDistance, e) {
        UpdateBlurKernel(e);
      }
    }

    /** The settings the render textures depend on. */
    function TextureSettingsNow(): TextureSettings
      reads this`backgroundMode, this`maskMode, this`cageDownsample, this`cageAntiAliasing, this`blurDownsample
    {
      TextureSettings(backgroundMode, maskMode, cageDownsample, cageAntiAliasing, blurDownsample)
    }

    /**
     * An update of the render textures takes effect: the new textures, then, when the
     * mask texture was re-created, the mask buffer is reset, and when the blur textures
     * were, the blur kernel is recomputed for them.
     */
    method ApplyTextureUpdate(u: TextureUpdate, e: Engine)
      requires Valid()
      modifies this`textures, this`maskCmdExists, this`maskBufferObjects, this`maskRegistrations, this`camHasMask, this`lastMaskMode
      modifies blurOffsets, this`lastBlurRadius, this`lastBlurKernel
      ensures textures == u.textures
      ensures u.maskRecreated ==>
        MaskState(camHasMask, lastMaskMode) == MaskTransition(enabled, MaskState(old(camHasMask), old(lastMaskMode)), maskMode)
        && maskCmdExists && maskBufferObjects == masks.items
      ensures !u.maskRecreated ==> camHasMask == old(camHasMask) && lastMaskMode == old(lastMaskMode)
      ensures u.blurRecreated ==> BlurKernelUpdated(e)
      ensures !u.blurRecreated ==> unchanged(blurOffsets) && lastBlurRadius == old(lastBlurRadius) && lastBlurKernel == old(lastBlurKernel)
      ensures Valid()
    {
      textures := u.textures;
      if u.maskRecreated {
        ResetMaskCommandBuffer();
      }
      if u.blurRecreated {
        UpdateBlurKernel(e);
      }
    }

    /**
     * `UpdateRenderTextures` as written (the first `Draw` of a frame): the textures
     * become `UpdateAsWritten`'s. A completed update leaves nothing due.
     */
    method UpdateRenderTexturesAsWritten(src: Source, e: Engine) returns (ok: bool)
      requires Valid()
      modifies this`textures, this`maskCmdExists, this`maskBufferObjects, this`maskRegistrations, this`camHasMask, this`lastMaskMode
      modifies blurOffsets, this`lastBlurRadius, this`lastBlurKernel
      ensures var u := UpdateAsWritten(old(textures), TextureSettingsNow(), src); ok == u.ok && textures == u.textures
      ensures ok ==> !AnyDueAsWritten(textures, TextureSettingsNow(), src)
      ensures Valid()
    {
      var u := UpdateAsWritten(textures, TextureSettingsNow(), src);
      UpdateAsWrittenSettles(textures, TextureSettingsNow(), src);
      ApplyTextureUpdate(u, e);
      ok := u.ok;
    }

    /**
     * `UpdateRenderTextures` as intended: the textures become `Update`'s. A completed
     * update leaves every texture in use what the source calls for.
     */
    method UpdateRenderTextures(src: Source, e: Engine) returns (ok: bool)
      requires Valid()
      modifies this`textures, this`maskCmdExists, this`maskBufferObjects, this`maskRegistrations, this`camHasMask, this`lastMaskMode
      modifies blurOffsets, this`lastBlurRadius, this`lastBlurKernel
      ensures var u := Update(old(textures), TextureSettingsNow(), src); ok == u.ok && textures == u.textures
      ensures ok ==> TexturesMatch(textures, TextureSettingsNow(), src)
      ensures Valid()
    {
      var u := Update(textures, TextureSettingsNow(), src);
      UpdateMatchesSource(textures, TextureSettingsNow(), src);
      ApplyTextureUpdate(u, e);
      ok := u.ok;
    }

    /**
     * The iris part of `LateUpdate`: the buffer follows `DrawIris()` as
     * `IrisTransition` says, and while the iris is drawn its aperture is set a little
     * inside the effect's. Registrations that match the flag keep matching it.
     */
    method UpdateIris(motion: real)
      modifies this`irisRegistrations, this`camHasIris, this`wasDrawingIrisEarly, this`irisAperture
      ensures IrisState(camHasIris, wasDrawingIrisEarly) == IrisTransition(IrisState(old(camHasIris), old(wasDrawingIrisEarly)), DrawIris())
      ensures old(irisRegistrations == Registrations(camHasIris)) ==> irisRegistrations == Registrations(camHasIris)
      ensures irisAperture == if DrawIris() then Aperture(motion * IRIS_SCALE, motion * IRIS_SCALE - core.effectFeather) else old(irisAperture)
    {
      var di := DrawIris();
      if wasDrawingIrisEarly != di {
        if camHasIris && !di {
          ToggleIrisCommandBuffer(false);
        } else if !camHasIris && di {
          ToggleIrisCommandBuffer(true);
        }
        wasDrawingIrisEarly := di;
      }
      if di {
        var inner := motion * IRIS_SCALE;
        irisAperture := Aperture(inner, inner - core.effectFeather);
      }
    }

    /**
     * The counter-velocity part of `LateUpdate`: a reset is due when the mode changed,
     * or in REAL mode when the reset time has come or the offset reached the reset
     * distance; the time reset schedules the next one. The counter-motion is then reset
     * once, however many reasons there were.
     */
    method CheckCounterVelocityReset(time: real, t: TargetReading) returns (reset: bool)
      requires Valid()
      modifies this`lastCvMode, this`timeToResetCounterVelocity, core`cmRot, core`lastRot, this`cmPos, this`cagePose
      ensures lastCvMode == counterVelocity.mode
      ensures reset <==> CounterVelocityResetDue(old(lastCvMode), counterVelocity, time, old(timeToResetCounterVelocity), old(cmPos))
      ensures timeToResetCounterVelocity == NextResetDeadline(counterVelocity, time, old(timeToResetCounterVelocity))
      ensures CounterState(core.cmRot, cagePose, cmPos) == CounterChecked(old(CounterState(core.cmRot, cagePose, cmPos)), counterVelocity, old(lastCvMode), time, old(timeToResetCounterVelocity),
                                   cageParent.Some?, cageInitialPosLocal)
      ensures core.lastRot == if reset then t.rotation else old(core.lastRot)
      ensures Valid()
    {
      reset := false;
      if lastCvMode != counterVelocity.mode {
        reset := true;
        lastCvMode := counterVelocity.mode;
      }
      if counterVelocity.mode == CounterVelocityMode.REAL {
        if counterVelocity.resetTime > 0.0 && time >= timeToResetCounterVelocity {
          reset := true;
          timeToResetCounterVelocity := time + counterVelocity.resetTime;
        }
        if BeyondResetDistance(cmPos, counterVelocity.resetDistance) {
          reset := true;
        }
      }
      if reset {
        ResetCounterMotion(t);
      }
    }

    /**
     * The material part of `LateUpdate` after a completed motion tick: the tunnel
     * material, then the blur kernel when it is stale; the tick's outcome stays in place.
     */
    method UpdateMaterials(motion: real, f: Frame, t: TargetReading, ghost prev: TickMemory)
      requires Valid() && core.TickOutcome(t, f, prev, Strength(motion))
      modifies this`tunnel
      modifies blurOffsets, this`lastBlurRadius, this`lastBlurKernel
      ensures tunnel == TunnelMaterialFor(old(tunnel), motion, core.effectFeather, effectOverlay, backgroundMode,
                                          core.applyColorToBackground, core.effectColor, core.effectSkybox)
      ensures textures.blur0.Some? ==> !BlurKernelStale(lastBlurKernel, blurSamples, lastBlurRadius, blurDistance, f.engine)
      ensures core.TickOutcome(t, f, prev, Strength(motion))
      ensures Valid()
    {
      SetTunnelMaterial(motion);
      RefreshBlurKernel(f.engine);
    }

    /**
     * The command-buffer part of `LateUpdate` after a completed motion tick: the mask
     * reset on a mode change (`MaskUpdate`), the iris (`IrisTransition`) and the
     * counter-velocity reset (`CounterChecked`). Afterwards the iris is registered exactly
     * when it is drawable. A counter-velocity reset re-caches the rotation of `t`, so the
     * motion the tick that saw `t` cached stays cached.
     */
    method UpdateCameraBuffers(motion: real, f: Frame, t: TargetReading, ghost prev: TickMemory) returns (reset: bool)
      requires Valid() && enabled && core.TickOutcome(t, f, prev, Strength(motion))
      modifies core`cmRot, core`lastRot, this`cagePose, this`cmPos
      modifies this`maskCmdExists, this`maskBufferObjects, this`maskRegistrations, this`camHasMask, this`lastMaskMode
      modifies this`irisRegistrations, this`camHasIris, this`wasDrawingIrisEarly, this`irisAperture
      modifies this`lastCvMode, this`timeToResetCounterVelocity
      ensures MaskState(camHasMask, lastMaskMode) == MaskUpdate(old(MaskState(camHasMask, lastMaskMode)), maskMode)
      ensures IrisState(camHasIris, wasDrawingIrisEarly) == IrisTransition(old(IrisState(camHasIris, wasDrawingIrisEarly)), DrawIris()) && camHasIris == DrawIris()
      ensures irisAperture == if DrawIris() then Aperture(motion * IRIS_SCALE, motion * IRIS_SCALE - core.effectFeather) else old(irisAperture)
      ensures reset <==> CounterVelocityResetDue(old(lastCvMode), counterVelocity, f.time, old(timeToResetCounterVelocity), old(cmPos))
      ensures lastCvMode == counterVelocity.mode
      ensures timeToResetCounterVelocity == NextResetDeadline(counterVelocity, f.time, old(timeToResetCounterVelocity))
      ensures CounterState(core.cmRot, cagePose, cmPos) == CounterChecked(old(CounterState(core.cmRot, cagePose, cmPos)), counterVelocity, old(lastCvMode), f.time, old(timeToResetCounterVelocity),
                                     cageParent.Some?, cageInitialPosLocal)
      ensures core.TickOutcome(t, f, prev, Strength(motion))
      ensures Valid()
    {
      UpdateMaskAndIris(motion, f, t, prev);
      reset := UpdateCounterVelocity(motion, f, t, prev);
    }

    /** `CheckCounterVelocityReset` after a completed tick, whose outcome it leaves in place. */
    method UpdateCounterVelocity(motion: real, f: Frame, t: TargetReading, ghost prev: TickMemory) returns (reset: bool)
      requires Valid() && core.TickOutcome(t, f, prev, Strength(motion))
      modifies this`lastCvMode, this`timeToResetCounterVelocity, core`cmRot, core`lastRot, this`cmPos, this`cagePose
      ensures reset <==> CounterVelocityResetDue(old(lastCvMode), counterVelocity, f.time, old(timeToResetCounterVelocity), old(cmPos))
      ensures lastCvMode == counterVelocity.mode
      ensures timeToResetCounterVelocity == NextResetDeadline(counterVelocity, f.time, old(timeToResetCounterVelocity))
      ensures CounterState(core.cmRot, cagePose, cmPos) == CounterChecked(old(CounterState(core.cmRot, cagePose, cmPos)), counterVelocity, old(lastCvMode), f.time, old(timeToResetCounterVelocity),
                                     cageParent.Some?, cageInitialPosLocal)
      ensures core.TickOutcome(t, f, prev, Strength(motion))
      ensures Valid()
    {
      reset := CheckCounterVelocityReset(f.time, t);
    }

    /** The mask reset on a mode change, then the iris: afterwards it is registered exactly when it is drawable. */
    method UpdateMaskAndIris(motion: real, f: Frame, t: TargetReading, ghost prev: TickMemory)
      requires Valid() && enabled && core.TickOutcome(t, f, prev, Strength(motion))
      modifies this`maskCmdExists, this`maskBufferObjects, this`maskRegistrations, this`camHasMask, this`lastMaskMode
      modifies this`irisRegistrations, this`camHasIris, this`wasDrawingIrisEarly, this`irisAperture
      ensures MaskState(camHasMask, lastMaskMode) == MaskUpdate(old(MaskState(camHasMask, lastMaskMode)), maskMode)
      ensures IrisState(camHasIris, wasDrawingIrisEarly) == IrisTransition(old(IrisState(camHasIris, wasDrawingIrisEarly)), DrawIris()) && camHasIris == DrawIris()
      ensures irisAperture == if DrawIris() then Aperture(motion * IRIS_SCALE, motion * IRIS_SCALE - core.effectFeather) else old(irisAperture)
      ensures core.TickOutcome(t, f, prev, Strength(motion))
      ensures Valid()
    {
      UpdateMaskState();
      IrisTransitionTracksDrawIris(IrisState(camHasIris, wasDrawingIrisEarly), DrawIris());
      UpdateIris(motion);
    }

    /**
     * The part of `LateUpdate` after a completed motion tick: the tunnel material
     * (`TunnelMaterialFor`), the mask reset on a mode change (`MaskUpdate`), the blur
     * kernel, the iris (`IrisTransition`) with its aperture a little inside the effect's,
     * and the counter-velocity reset check (`CounterChecked`, `NextResetDeadline`). The
     * camera-buffer part runs before the material part here: the two touch disjoint state,
     * so the order does not change the outcome. The motion the tick cached against `prev`
     * stays cached and the motion-effect target is left alone.
     */
    method AfterMotion(motion: real, f: Frame, t: TargetReading, ghost prev: TickMemory)
      requires Valid() && enabled && core.TickOutcome(t, f, prev, Strength(motion))
      modifies core`cmRot, core`lastRot, this`cagePose, this`cmPos
      modifies this`tunnel
      modifies blurOffsets, this`lastBlurRadius, this`lastBlurKernel
      modifies this`maskCmdExists, this`maskBufferObjects, this`maskRegistrations, this`camHasMask, this`lastMaskMode
      modifies this`irisRegistrations, this`camHasIris, this`wasDrawingIrisEarly, this`irisAperture
      modifies this`lastCvMode, this`timeToResetCounterVelocity
      ensures MaskState(camHasMask, lastMaskMode) == MaskUpdate(old(MaskState(camHasMask, lastMaskMode)), maskMode)
      ensures IrisState(camHasIris, wasDrawingIrisEarly) == IrisTransition(old(IrisState(camHasIris, wasDrawingIrisEarly)), DrawIris())
      ensures irisAperture == if DrawIris() then Aperture(motion * IRIS_SCALE, motion * IRIS_SCALE - core.effectFeather) else old(irisAperture)
      ensures lastCvMode == counterVelocity.mode
      ensures timeToResetCounterVelocity == NextResetDeadline(counterVelocity, f.time, old(timeToResetCounterVelocity))
      ensures CounterState(core.cmRot, cagePose, cmPos) == CounterChecked(old(CounterState(core.cmRot, cagePose, cmPos)), counterVelocity, old(lastCvMode), f.time, old(timeToResetCounterVelocity),
                                     cageParent.Some?, cageInitialPosLocal)
      ensures camHasIris == DrawIris()
      ensures core.TickOutcome(t, f, prev, Strength(motion))
      ensures core.effect == old(core.effect) && core.motionEffects == old(core.motionEffects)
      ensures core.useCounterMotion == old(core.useCounterMotion)
      ensures tunnel == TunnelMaterialFor(old(tunnel), motion, core.effectFeather, effectOverlay, backgroundMode,
                                          core.applyColorToBackground, core.effectColor, core.effectSkybox)
      ensures textures.blur0.Some? ==> !BlurKernelStale(lastBlurKernel, blurSamples, lastBlurRadius, blurDistance, f.engine)
      ensures Valid()
    {
      var _ := UpdateCameraBuffers(motion, f, t, prev);
      UpdateMaterials(motion, f, t, prev);
    }

    /** `Tick` once the motion target is present: `TrackTarget`, then, after a completed tick, `AfterMotion`. */
    method TickTarget(t: TargetReading, f: Frame, cageInverseTransformVector: Vec3 -> Vec3) returns (r: MotionResult)
      requires Valid() && enabled
      modifies core`avSmoothed, core`avSlew, core`speedSmoothed, core`speedSlew, core`accelSmoothed, core`accelSlew
      modifies core`effect
      modifies core`cmRot, core`lastFwd, core`lastPos, core`lastSpeed, core`lastVel, core`lastRot
      modifies this`cagePose, this`cmPos
      modifies this`tunnel
      modifies this`maskCmdExists, this`maskBufferObjects, this`maskRegistrations, this`camHasMask, this`lastMaskMode
      modifies blurOffsets, this`lastBlurRadius, this`lastBlurKernel
      modifies this`irisRegistrations, this`camHasIris, this`wasDrawingIrisEarly, this`irisAperture
      modifies this`lastCvMode, this`timeToResetCounterVelocity
      ensures core.TickOutcome(t, f, old(core.Memory()), r)
      ensures TargetMoved(old(core.motionEffects), core.effect, t, f, old(core.Memory()))
      ensures (r.Strength? <==>
          !DivisionFailsOn(core.motionEffects.motionEffectTarget, f.frameCount, old(core.effect.lastFpsDivision),
                           core.motionEffects.framerateDivision, core.motionEffects.divideTranslation, core.motionEffects.divideRotation)
          && (core.useCounterMotion ==> cageParent.Some?))
      ensures r.Strength? ==> 0.0 <= r.value <= 1.0 && camHasIris == DrawIris()
      ensures r.Strength? ==> tunnel.inner == r.value && tunnel.inner - tunnel.outer == core.effectFeather && tunnel.overlay == effectOverlay
      ensures r.Strength? ==> lastMaskMode == maskMode && lastCvMode == counterVelocity.mode
      ensures r.Strength? && textures.blur0.Some? ==> !BlurKernelStale(lastBlurKernel, blurSamples, lastBlurRadius, blurDistance, f.engine)
      ensures Valid()
    {
      ghost var prev := core.Memory();
      r := TrackTarget(t, f, cageInverseTransformVector);
      if r.NullReference? {
        return;
      }
      AfterMotion(r.value, f, t, prev);
    }

    /**
     * `LateUpdate` after the keywords: the motion tick (a null dereference aborts the
     * rest), then the materials and the command buffers.
     */
    method Tick(f: Frame, cageInverseTransformVector: Vec3 -> Vec3) returns (r: MotionResult)
      requires Valid() && enabled
      modifies core`avSmoothed, core`avSlew, core`speedSmoothed, core`speedSlew, core`accelSmoothed, core`accelSlew
      modifies core`effect
      modifies core`cmRot, core`lastFwd, core`lastPos, core`lastSpeed, core`lastVel, core`lastRot
      modifies this`cagePose, this`cmPos
      modifies this`tunnel
      modifies this`maskCmdExists, this`maskBufferObjects, this`maskRegistrations, this`camHasMask, this`lastMaskMode
      modifies blurOffsets, this`lastBlurRadius, this`lastBlurKernel
      modifies this`irisRegistrations, this`camHasIris, this`wasDrawingIrisEarly, this`irisAperture
      modifies this`lastCvMode, this`timeToResetCounterVelocity
      ensures f.target.None? ==> r == NullReference && unchanged(core) && cagePose == old(cagePose) && cmPos == old(cmPos)
      ensures f.target.Some? ==> core.TickOutcome(f.target.value, f, old(core.Memory()), r)
      ensures f.target.Some? ==> TargetMoved(old(core.motionEffects), core.effect, f.target.value, f, old(core.Memory()))
      ensures f.target.Some? ==> (r.Strength? <==>
          !DivisionFailsOn(core.motionEffects.motionEffectTarget, f.frameCount, old(core.effect.lastFpsDivision),
                           core.motionEffects.framerateDivision, core.motionEffects.divideTranslation, core.motionEffects.divideRotation)
          && (core.useCounterMotion ==> cageParent.Some?))
      ensures r.Strength? ==> 0.0 <= r.value <= 1.0 && camHasIris == DrawIris()
      ensures r.Strength? ==> tunnel.inner == r.value && tunnel.inner - tunnel.outer == core.effectFeather && tunnel.overlay == effectOverlay
      ensures r.Strength? ==> lastMaskMode == maskMode && lastCvMode == counterVelocity.mode
      ensures r.Strength? && textures.blur0.Some? ==> !BlurKernelStale(lastBlurKernel, blurSamples, lastBlurRadius, blurDistance, f.engine)
      ensures Valid()
    {
      if f.target.None? {
        return NullReference;
      }
      r := TickTarget(f.target.value, f, cageInverseTransformVector);
    }

    /**
     * `LateUpdate` of an enabled component: the keywords, the motion tick (a null
     * dereference aborts the rest), then the tunnel material, the mask reset on a mode
     * change, the blur kernel, the iris and the counter-velocity reset (`AfterMotion`).
     * After a completed tick the tunnel aperture is the tick's strength, the mask and
     * counter-velocity modes have been acted upon, the blur kernel is fresh and the iris
     * buffer is registered exactly when the iris is drawable.
     */
    method LateUpdate(f: Frame, cageInverseTransformVector: Vec3 -> Vec3) returns (r: MotionResult)
      requires Valid() && enabled
      modifies this`keywords
      modifies core`avSmoothed, core`avSlew, core`speedSmoothed, core`speedSlew, core`accelSmoothed, core`accelSlew
      modifies core`effect
      modifies core`cmRot, core`lastFwd, core`lastPos, core`lastSpeed, core`lastVel, core`lastRot
      modifies this`cagePose, this`cmPos
      modifies this`tunnel
      modifies this`maskCmdExists, this`maskBufferObjects, this`maskRegistrations, this`camHasMask, this`lastMaskMode
      modifies blurOffsets, this`lastBlurRadius, this`lastBlurKernel
      modifies this`irisRegistrations, this`camHasIris, this`wasDrawingIrisEarly, this`irisAperture
      modifies this`lastCvMode, this`timeToResetCounterVelocity
      ensures keywords == KeywordsFor(maskMode, backgroundMode)
      ensures f.target.None? ==> r == NullReference && unchanged(core) && cagePose == old(cagePose) && cmPos == old(cmPos)
      ensures f.target.Some? ==> core.TickOutcome(f.target.value, f, old(core.Memory()), r)
      ensures f.target.Some? ==> TargetMoved(old(core.motionEffects), core.effect, f.target.value, f, old(core.Memory()))
      ensures f.target.Some? ==> (r.Strength? <==>
          !DivisionFailsOn(core.motionEffects.motionEffectTarget, f.frameCount, old(core.effect.lastFpsDivision),
                           core.motionEffects.framerateDivision, core.motionEffects.divideTranslation, core.motionEffects.divideRotation)
          && (core.useCounterMotion ==> cageParent.Some?))
      ensures r.Strength? ==> 0.0 <= r.value <= 1.0 && camHasIris == DrawIris()
      ensures r.Strength? ==> tunnel.inner == r.value && tunnel.inner - tunnel.outer == core.effectFeather && tunnel.overlay == effectOverlay
      ensures r.Strength? ==> lastMaskMode == maskMode && lastCvMode == counterVelocity.mode
      ensures r.Strength? && textures.blur0.Some? ==> !BlurKernelStale(lastBlurKernel, blurSamples, lastBlurRadius, blurDistance, f.engine)
      ensures Valid()
    {
      UpdateKeywords();
      r := Tick(f, cageInverseTransformVector);
    }

    /**
     * `ResetMotion` with this component's counter-motion reset, which also returns the
     * cage. Without a motion target its first step throws and nothing changes.
     */
    method ResetMotion(target: Option<TargetReading>) returns (ok: bool)
      modifies core`lastFwd, core`lastPos, core`lastSpeed
      modifies core`avSmoothed, core`avSlew, core`speedSmoothed, core`speedSlew, core`accelSmoothed, core`accelSlew
      modifies core`cmRot, core`lastRot, this`cmPos, this`cagePose
      ensures ok == target.Some?
      ensures ok ==> core.MotionReset(target.value) && cmPos == Zero3
      ensures ok ==> cagePose == if cageParent.Some? then old(cagePose).(localPosition := cageInitialPosLocal) else old(cagePose)
      ensures !ok ==> unchanged(core) && cmPos == old(cmPos) && cagePose == old(cagePose)
    {
      if target.None? {
        return false;
      }
      core.ResetMotionState(target.value);
      ResetCounterMotion(target.value);
      ok := true;
    }

    /**
     * `OnEnable` as intended: the motion is reset, the mask buffer is registered when a
     * mask is in use and the buffer exists, the iris buffer when the iris is drawable,
     * and that last decision is recorded so that `LateUpdate` and `OnDisable` start from it.
     * Without a motion target the reset throws (`ok` is false): the component is enabled,
     * but nothing else has changed and the camera holds no buffer.
     */
    method OnEnable(target: Option<TargetReading>) returns (ok: bool)
      requires Valid() && !enabled
      modifies core`lastFwd, core`lastPos, core`lastSpeed
      modifies core`avSmoothed, core`avSlew, core`speedSmoothed, core`speedSlew, core`accelSmoothed, core`accelSlew
      modifies core`cmRot, core`lastRot, this`cmPos, this`cagePose
      modifies this`maskRegistrations, this`camHasMask, this`irisRegistrations, this`camHasIris, this`wasDrawingIrisEarly, this`enabled
      ensures ok == target.Some? && enabled
      ensures ok ==> core.MotionReset(target.value) && cmPos == Zero3
      ensures ok ==> camHasMask == (UsingMask(maskMode) && maskCmdExists) && camHasIris == DrawIris()
      ensures ok ==> Valid()
      ensures !ok ==> unchanged(core) && cmPos == old(cmPos) && !camHasMask && !camHasIris
      ensures !ok ==> maskRegistrations == old(maskRegistrations) && irisRegistrations == old(irisRegistrations)
    {
      ok := ResetMotion(target);
      if !ok {
        enabled := true;
        return;
      }
      RegisterBuffers();
    }

    /** The registrations `OnEnable` makes once the motion is reset. */
    method RegisterBuffers()
      requires Valid() && !enabled
      modifies this`maskRegistrations, this`camHasMask, this`irisRegistrations, this`camHasIris, this`wasDrawingIrisEarly, this`enabled
      ensures enabled && camHasMask == (UsingMask(maskMode) && maskCmdExists) && camHasIris == DrawIris()
      ensures Valid()
    {
      if UsingMask(maskMode) && maskCmdExists {
        ToggleMaskCommandBuffer(true);
      }
      var di := DrawIris();
      if di {
        ToggleIrisCommandBuffer(true);
      }
      wasDrawingIrisEarly := di;
      enabled := true;
    }

    /**
     * `OnEnable` as written: the same registrations, but whether the iris was found
     * drawable is not recorded, and nothing stops a buffer being added a second time.
     * Without a motion target the reset throws first and only the enabled state changes.
     */
    method OnEnableAsWritten(target: Option<TargetReading>) returns (ok: bool)
      modifies core`lastFwd, core`lastPos, core`lastSpeed
      modifies core`avSmoothed, core`avSlew, core`speedSmoothed, core`speedSlew, core`accelSmoothed, core`accelSlew
      modifies core`cmRot, core`lastRot, this`cmPos, this`cagePose
      modifies this`maskRegistrations, this`camHasMask, this`irisRegistrations, this`camHasIris, this`enabled
      ensures ok == target.Some? && enabled
      ensures ok ==> core.MotionReset(target.value) && cmPos == Zero3
      ensures ok ==> maskRegistrations == old(maskRegistrations) + Registrations(UsingMask(maskMode) && maskCmdExists)
      ensures ok ==> irisRegistrations == old(irisRegistrations) + Registrations(DrawIris())
      ensures ok ==> camHasIris == (old(camHasIris) || DrawIris())
      ensures !ok ==> unchanged(core) && cmPos == old(cmPos)
      ensures !ok ==> maskRegistrations == old(maskRegistrations) && irisRegistrations == old(irisRegistrations) && camHasIris == old(camHasIris)
    {
      ok := ResetMotion(target);
      if ok {
        if UsingMask(maskMode) && maskCmdExists {
          ToggleMaskCommandBuffer(true);
        }
        if DrawIris() {
          ToggleIrisCommandBuffer(true);
        }
      }
      enabled := true;
    }

    /** `OnDisable` as intended: every buffer the camera holds is removed. */
    method OnDisable()
      requires Valid() && enabled
      modifies this`maskRegistrations, this`camHasMask, this`irisRegistrations, this`camHasIris, this`enabled
      ensures !enabled && maskRegistrations == 0 && irisRegistrations == 0
      ensures Valid()
    {
      if camHasMask && maskCmdExists {
        ToggleMaskCommandBuffer(false);
      }
      if camHasIris {
        ToggleIrisCommandBuffer(false);
      }
      enabled := false;
    }

    /**
     * `OnDisable` as written: the iris buffer is only removed while the iris is still
     * drawable, so one registered before a change of settings stays on the camera.
     */
    method OnDisableAsWritten()
      modifies this`maskRegistrations, this`camHasMask, this`irisRegistrations, this`camHasIris, this`enabled
      ensures !enabled
      ensures maskRegistrations == if old(camHasMask) && maskCmdExists then 0 else old(maskRegistrations)
      ensures irisRegistrations == if old(camHasIris) && DrawIris() then 0 else old(irisRegistrations)
    {
      if camHasMask && maskCmdExists {
        ToggleMaskCommandBuffer(false);
      }
      if camHasIris && DrawIris() {
        ToggleIrisCommandBuffer(false);
      }
      enabled := false;
    }

    /** The image settings a preset can override. */
    function Settings(): ImageSettings
      reads this`effectOverlay, this`backgroundMode, this`cageDownsample, this`cageAntiAliasing, this`cageUpdateEveryFrame
      reads this`cageFogDensity, this`cageFogPower, this`cageFogBlend
      reads this`maskMode, this`blurDownsample, this`blurDistance, this`blurPasses, this`blurSamples
      reads this`counterVelocity, this`irisZRejection
    {
      ImageSettings(
        effectOverlay, backgroundMode, cageDownsample, cageAntiAliasing, cageUpdateEveryFrame,
        cageFogDensity, cageFogPower, cageFogBlend,
        maskMode, blurDownsample, blurDistance, blurPasses, blurSamples,
        counterVelocity.mode, counterVelocity.resetDistance, counterVelocity.resetTime,
        counterVelocity.strength, counterVelocity.perAxis, irisZRejection)
    }

    /** `ApplyPreset`: the base preset first, then each image setting whose override getter is true. */
    method ApplyPreset(p: ImagePreset)
      modifies core`effectCoverage, core`effectColor, core`effectFeather, core`applyColorToBackground, core`effectSkybox
      modifies core`angularVelocity, core`acceleration, core`velocity
      modifies core`useCounterMotion, core`counterRotationPerAxis, core`motionEffects
      modifies this`effectOverlay, this`backgroundMode, this`cageDownsample, this`cageAntiAliasing, this`cageUpdateEveryFrame
      modifies this`cageFogDensity, this`cageFogPower, this`cageFogBlend
      modifies this`maskMode, this`blurDownsample, this`blurDistance, this`blurPasses, this`blurSamples
      modifies this`counterVelocity, this`irisZRejection
      ensures core.BaseSettingsApplied(p.base)
      ensures Settings() == ApplyImagePreset(p, old(Settings()))
    {
      core.ApplyPresetBase(p.base);
      ApplyImageSettings(p);
    }

    /** The image part of `ApplyPreset`: the settings become `ApplyImagePreset`'s. */
    method ApplyImageSettings(p: ImagePreset)
      modifies this`effectOverlay, this`backgroundMode, this`cageDownsample, this`cageAntiAliasing, this`cageUpdateEveryFrame
      modifies this`cageFogDensity, this`cageFogPower, this`cageFogBlend
      modifies this`maskMode, this`blurDownsample, this`blurDistance, this`blurPasses, this`blurSamples
      modifies this`counterVelocity, this`irisZRejection
      ensures Settings() == ApplyImagePreset(p, old(Settings()))
    {
      var s := ApplyImagePreset(p, Settings());
      SetLookSettings(s);
      SetBehaviourSettings(s);
    }

    /** Takes the overlay, background, cage and fog settings from `s`. */
    method SetLookSettings(s: ImageSettings)
      modifies this`effectOverlay, this`backgroundMode, this`cageDownsample, this`cageAntiAliasing, this`cageUpdateEveryFrame
      modifies this`cageFogDensity, this`cageFogPower, this`cageFogBlend
      ensures effectOverlay == s.effectOverlay && backgroundMode == s.backgroundMode && cageDownsample == s.cageDownsample
      ensures cageAntiAliasing == s.cageAntiAliasing && cageUpdateEveryFrame == s.cageUpdateEveryFrame
      ensures cageFogDensity == s.cageFogDensity && cageFogPower == s.cageFogPower && cageFogBlend == s.cageFogBlend
    {
      SetBackgroundSettings(s);
      SetFogSettings(s);
    }

    /** Takes the mask, blur, counter-velocity and iris settings from `s`. */
    method SetBehaviourSettings(s: ImageSettings)
      modifies this`maskMode, this`blurDownsample, this`blurDistance, this`blurPasses, this`blurSamples
      modifies this`counterVelocity, this`irisZRejection
      ensures maskMode == s.maskMode && blurDownsample == s.blurDownsample && blurDistance == s.blurDistance
      ensures blurPasses == s.blurPasses && blurSamples == s.blurSamples
      ensures counterVelocity.mode == s.counterVelocityMode && counterVelocity.resetDistance == s.counterVelocityResetDistance
      ensures counterVelocity.resetTime == s.counterVelocityResetTime && counterVelocity.strength == s.counterVelocityStrength
      ensures counterVelocity.perAxis == s.counterVelocityPerAxis && irisZRejection == s.irisZRejection
    {
      SetMaskAndBlurSettings(s);
      SetCounterVelocitySettings(s);
    }

    /** Takes the overlay, background and cage settings from `s`. */
    method SetBackgroundSettings(s: ImageSettings)
      modifies this`effectOverlay, this`backgroundMode, this`cageDownsample, this`cageAntiAliasing, this`cageUpdateEveryFrame
      ensures effectOverlay == s.effectOverlay && backgroundMode == s.backgroundMode && cageDownsample == s.cageDownsample
      ensures cageAntiAliasing == s.cageAntiAliasing && cageUpdateEveryFrame == s.cageUpdateEveryFrame
    {
      effectOverlay, backgroundMode, cageDownsample, cageAntiAliasing, cageUpdateEveryFrame :=
        s.effectOverlay, s.backgroundMode, s.cageDownsample, s.cageAntiAliasing, s.cageUpdateEveryFrame;
    }

    /** Takes the fog settings from `s`. */
    method SetFogSettings(s: ImageSettings)
      modifies this`cageFogDensity, this`cageFogPower, this`cageFogBlend
      ensures cageFogDensity == s.cageFogDensity && cageFogPower == s.cageFogPower && cageFogBlend == s.cageFogBlend
    {
      cageFogDensity, cageFogPower, cageFogBlend := s.cageFogDensity, s.cageFogPower, s.cageFogBlend;
    }

    /** Takes the mask and blur settings from `s`. */
    method SetMaskAndBlurSettings(s: ImageSettings)
      modifies this`maskMode, this`blurDownsample, this`blurDistance, this`blurPasses, this`blurSamples
      ensures maskMode == s.maskMode && blurDownsample == s.blurDownsample && blurDistance == s.blurDistance
      ensures blurPasses == s.blurPasses && blurSamples == s.blurSamples
    {
      maskMode, blurDownsample, blurDistance, blurPasses, blurSamples :=
        s.maskMode, s.blurDownsample, s.blurDistance, s.blurPasses, s.blurSamples;
    }

    /** Takes the counter-velocity and iris settings from `s`. */
    method SetCounterVelocitySettings(s: ImageSettings)
      modifies this`counterVelocity, this`irisZRejection
      ensures counterVelocity.mode == s.counterVelocityMode && counterVelocity.resetDistance == s.counterVelocityResetDistance
      ensures counterVelocity.resetTime == s.counterVelocityResetTime && counterVelocity.strength == s.counterVelocityStrength
      ensures counterVelocity.perAxis == s.counterVelocityPerAxis && irisZRejection == s.irisZRejection
    {
      counterVelocity := CounterVelocitySettings(s.counterVelocityMode, s.counterVelocityResetDistance, s.counterVelocityResetTime,
                                                 s.counterVelocityStrength, s.counterVelocityPerAxis);
      irisZRejection := s.irisZRejection;
    }
  }

  /**
   * As written, switching the mask on and disabling before the next `LateUpdate` leaves
   * the iris buffer on the disabled camera (the iris is no longer drawable, so it is not
   * removed); switching the mask off again and re-enabling adds it a second time.
   */
  method DisableAfterMaskOnAsWritten(scene: map<ObjectId, LocalPose>, cagePose: LocalPose, maskEvent: CameraEvent, t: TargetReading)
    returns (enabled: bool, whileDisabled: nat, afterReEnable: nat)
    ensures !enabled && whileDisabled == 1 && afterReEnable == 2
  {
    var fx := new ImageEffect(scene, None, cagePose, maskEvent);
    var _ := fx.OnEnableAsWritten(Some(t));
    fx.maskMode := MaskMode.MASK;
    fx.OnDisableAsWritten();
    enabled, whileDisabled := fx.enabled, fx.irisRegistrations;
    fx.maskMode := MaskMode.OFF;
    var _ := fx.OnEnableAsWritten(Some(t));
    afterReEnable := fx.irisRegistrations;
  }

  /** The same steps with the intended lifecycle: nothing stays registered while disabled, and the iris is registered once again. */
  method DisableAfterMaskOn(scene: map<ObjectId, LocalPose>, cagePose: LocalPose, maskEvent: CameraEvent, t: TargetReading)
    returns (enabled: bool, whileDisabled: nat, afterReEnable: nat)
    ensures !enabled && whileDisabled == 0 && afterReEnable == 1
  {
    var fx := new ImageEffect(scene, None, cagePose, maskEvent);
    var _ := fx.OnEnable(Some(t));
    fx.maskMode := MaskMode.MASK;
    fx.OnDisable();
    enabled, whileDisabled := fx.enabled, fx.irisRegistrations;
    fx.maskMode := MaskMode.OFF;
    var _ := fx.OnEnable(Some(t));
    afterReEnable := fx.irisRegistrations;
  }

  /**
   * As written, enabling registers the iris without recording it; when the mask is
   * switched on before the first `LateUpdate`, its iris step sees no change since the
   * last check and leaves the iris buffer registered though the iris is not drawable.
   */
  method MaskOnBeforeFirstTickAsWritten(scene: map<ObjectId, LocalPose>, cagePose: LocalPose, maskEvent: CameraEvent, t: TargetReading)
    returns (drawable: bool, irisRegistrations: nat)
    ensures !drawable && irisRegistrations == 1
  {
    var fx := new ImageEffect(scene, None, cagePose, maskEvent);
    var _ := fx.OnEnableAsWritten(Some(t));
    fx.maskMode := MaskMode.MASK;
    fx.UpdateIris(0.0);
    drawable, irisRegistrations := fx.DrawIris(), fx.irisRegistrations;
  }

  /** The same steps with the intended `OnEnable`: the iris step removes the buffer. */
  method MaskOnBeforeFirstTick(scene: map<ObjectId, LocalPose>, cagePose: LocalPose, maskEvent: CameraEvent, t: TargetReading)
    returns (drawable: bool, irisRegistrations: nat)
    ensures !drawable && irisRegistrations == 0
  {
    var fx := new ImageEffect(scene, None, cagePose, maskEvent);
    var _ := fx.OnEnable(Some(t));
    fx.maskMode := MaskMode.MASK;
    fx.UpdateIris(0.0);
    drawable, irisRegistrations := fx.DrawIris(), fx.irisRegistrations;
  }
}
