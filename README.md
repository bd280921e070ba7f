# VR Tunnelling Pro: a verified model of the comfort vignette's control logic

VR Tunnelling Pro is a Unity package that reduces motion sickness in VR. While the
player moves, it darkens or replaces the edge of the view, which is called "tunnelling".
A component on the camera measures the motion target every frame. It has three
channels: angular velocity, linear velocity and linear acceleration. Each channel
smooths and normalises its reading. The sum of the channels becomes a vignette radius.

The same core also does four other things:
- it tilts a "motion-effect target" Transform to suggest acceleration;
- it can hold that Transform still on some frames ("framerate division");
- it counter-rotates a static reference "cage" against the player's rotation;
- it takes settings from preset assets.

There are two rendering back ends:
- The image-effect back end draws the vignette as a post-process. It has background
  modes (colour, skybox, cage, blur), mask modes, render textures sized from the
  source, and a depth-rejecting "iris". Each extra drawing job is a command buffer
  that it registers on the camera.
- The mobile back end draws an iris mesh through command buffers, with an optional
  stencil mask.

The model is written in Dafny, one module per part of the core:

| module | file | models |
|---|---|---|
| `UnityMath` | unity_math.dfy | the `Mathf` helpers the core uses (Clamp, Clamp01, Lerp, InverseLerp), written out |
| `Angles` | angles.dfy | the `Angle` and `Angle3` structs: canonical forms, operators, conversions |
| `Motion` | motion.dfy | `TunnellingBase`: the channels, effect strength, tilt, framerate division, counter-rotation, reset, base preset |
| `Cameras` | cameras.dfy | command-buffer registrations on a camera, as a multiset |
| `Modes` | modes.dfy | the enums (background, mask, MSAA, blur kernel, counter-velocity) and small value types |
| `ImagePolicy` | image_policy.dfy | the pure decisions of `TunnellingImageBase`: keywords, MSAA, sizes, mask and iris transitions, colours, blur offsets |
| `RenderTextures` | render_textures.dfy | `UpdateRenderTextures` as a function on a record of the render textures |
| `MaskObjects` | mask_objects.dfy | the list of renderers that mask the effect (`List.Add` and `List.Remove`) |
| `Image` | image.dfy | the `TunnellingImageBase` component as a class: lifecycle, `LateUpdate`, mask and iris buffers, presets |
| `Mobile` | mobile.dfy | the `TunnellingMobile` component as a class |
| `Presets`, `ImagePresets`, `MobilePresets` | preset_*.dfy | the three preset assets and their override getters |

How the C# becomes Dafny:
- Components that update their fields in place are classes: `Motion.MotionCore`,
  `Image.ImageEffect`, `Mobile.MobileEffect` and `MaskObjects.MaskList`.
- The derived components hold the base as `const core`, because inheritance is not
  available. The virtual overrides (`UpdateCounterMotion`, `ResetCounterMotion`) are
  composed from the phases the core exposes.
- Pure decisions are functions, and the methods apply them.
- Engine primitives are total functions in an `Engine` record, and every lemma holds
  for all of them. These primitives are SmoothDamp, `Vector3.Angle`, magnitude, `ln`,
  `Mathf.Approximately`, the Euler and quaternion conversions, quaternion products
  and `texelSize`.
- The Transforms the core reads arrive as a `Frame` parameter, together with the
  clock and the frame count. The Transforms it writes are a map of local poses.
- Floats are reals and C# `int` is `int`. C#'s truncating `/` is written out
  (`TruncDiv`).
- An exception stops the operation with the state reached so far. It is modelled as
  a `NullReference` result or an `ok == false` flag. The failures are:
  - a null motion target, on a tick and on enable;
  - a null motion-effect target under framerate division;
  - a null cage under counter-motion;
  - a downsampling of -1, whose integer division by zero throws.
- The camera's registrations are counted, so a buffer registered twice shows up.
  The image back end keeps a count per buffer. The mobile back end keeps a multiset
  of (event, buffer) pairs.

The code and its documentation disagree in one place. The doc comments of
`Angle.AngleType` and its accessors (`Scripts/TunnellingBase.cs:770-823`) give
580 => -140 for ANGLE and 580 => 220 for ACUTE. The code gives 220 and -140. The model
follows the code, and `Angles.DocumentedInputs` states the values the code produces.

## Model

| member | source | states |
|---|---|---|
| UnityMath.Clamp | Scripts/TunnellingBase.cs:613-618 | the result lies within the bounds when they are ordered, and an in-range value is returned unchanged |
| UnityMath.Clamp01 | Scripts/TunnellingBase.cs:551-553 | the result is in [0, 1], is the input when that is in [0, 1], and is 0 or 1 beyond each end |
| UnityMath.Lerp | Scripts/TunnellingBase.cs:491-493 | the result lies between the endpoints, with the parameter clamped at both ends |
| UnityMath.InverseLerp | Scripts/TunnellingBase.cs:530 | the result is in [0, 1]; it is 0 for an empty range, 0 below the range and 1 above it |
| Angles.Repeat360 | Scripts/TunnellingBase.cs:844 | the result is in [0, 360) and differs from the input by whole turns |
| Angles.ToAngle | Scripts/TunnellingBase.cs:843-858 | the result lies in the requested range (ANGLE [0, 360), ACUTE (-180, 180], REFLEX [-360, -180) or [180, 360)) and is congruent to the input modulo 360 |
| Angles.CanonicalUnique | Scripts/TunnellingBase.cs:843-858 | one range holds only one value of each congruence class |
| Angles.ToAngleIsTheCanonicalValue | Scripts/TunnellingBase.cs:843-858 | any in-range value congruent to the input is exactly what `ToAngle` returns |
| Angles.ToAngleAbsorbs | Scripts/TunnellingBase.cs:826-839 | normalising to any range first does not change the final result |
| Angles.ToAngleIdempotent | Scripts/TunnellingBase.cs:837-839 | re-normalising a stored angle or a normalised value changes nothing |
| Angles.ToAngleFixesCanonical | Scripts/TunnellingBase.cs:843-858 | a value already in range is returned unchanged |
| Angles.ToAngleIgnoresWholeTurns | Scripts/TunnellingBase.cs:843-858 | adding any whole number of turns leaves the result unchanged |
| Angles.DocumentedInputs | Scripts/TunnellingBase.cs:770-792 | the values the code gives for the documented examples -10, 10 and 580 in each range |
| Angles.FromFloat | Scripts/TunnellingBase.cs:826-829 | the stored angle differs from the float by whole turns |
| Angles.ToFloat | Scripts/TunnellingBase.cs:837-839 | the value read back lies in the requested range and is congruent to the stored angle |
| Angles.FloatLessAsWritten | Scripts/TunnellingBase.cs:933-944 | however deep the unfolding goes, the float-first comparison never returns a value |
| Angles.FloatComparisonsMatchAngleComparisons | Scripts/TunnellingBase.cs:905-944 | comparing an angle with a float, in either order, equals comparing it with the float converted to an angle |
| Angles.EqualIffWholeTurnsApart | Scripts/TunnellingBase.cs:886-891 | two floats give equal angles exactly when they differ by whole turns, in both directions |
| Angles.FloatOperandsNormaliseOnce | Scripts/TunnellingBase.cs:918-951 | adding or subtracting a float, on either side, gives the angle of the raw sum or difference |
| Angles.ComparisonsIgnoreWholeTurns | Scripts/TunnellingBase.cs:905-944 | whole turns added to the float operand change no comparison |
| Angles.Angle3OfReadsBackComponentwise | Scripts/TunnellingBase.cs:1040-1043 | converting a vector to `Angle3` and reading it back in any range normalises each axis on its own |
| Angles.Angle3EqualIffComponentsWholeTurnsApart | Scripts/TunnellingBase.cs:1067-1072 | two vectors give equal `Angle3`s exactly when each axis pair differs by whole turns |
| Angles.Plus3IsComponentwise | Scripts/TunnellingBase.cs:1051-1055 | adding two `Angle3`s and reading the sum back is a per-axis addition, normalised once |
| Angles.OffsetReadsBackAcute | Scripts/TunnellingBase.cs:1051-1055 | an `Angle3` offset by raw Euler angles and read acute is normalised once per axis |
| Motion.RemapRadius | Scripts/TunnellingBase.cs:491-493 | the radius lies in [COVERAGE_MIN, 1]; it is the minimum for no motion and 1 for a full amount |
| Motion.EffectStrength | Scripts/TunnellingBase.cs:574-575 | with the clamp of the return (line 680), the strength lies in [COVERAGE_MIN², 1]; at rest it is COVERAGE_MIN times the remapped coverage, and at full motion it is the remapped coverage |
| Motion.EffectStrengthMonotone | Scripts/TunnellingBase.cs:574-575 | a larger channel sum never gives a smaller strength |
| Motion.TickDeltaTime | Scripts/TunnellingBase.cs:498 | the delta time a tick divides by is never below 0.000001 and never below the frame's |
| Motion.ChannelSum | Scripts/TunnellingBase.cs:521-572 | with every channel switched off the sum is 0 |
| Motion.MoreChannelMotionNeverWeakens | Scripts/TunnellingBase.cs:497-575 | with non-negative strengths, higher smoothed levels in every channel never give a weaker effect, and with every channel off a tick rests at COVERAGE_MIN times the remapped coverage |
| Motion.VelocityLevel | Scripts/TunnellingBase.cs:546-555 | the level lies in [0, 1]; it is 0 for a degenerate range, 0 at or below the minimum and 1 at or above the maximum |
| Motion.AccelerationTarget | Scripts/TunnellingBase.cs:558-571 | the target is normalised into [0, 1] for a usable range; for a degenerate range the raw acceleration passes through |
| Motion.DegenerateRangesDifferByChannel | Scripts/TunnellingBase.cs:521-571 | with min == max the angular and velocity channels give 0, while the acceleration channel passes its raw value on |
| Motion.SignedLogKeepsSignAndShrinks | Scripts/TunnellingBase.cs:603-609 | the log compression keeps the sign and never increases the magnitude |
| Motion.LogCompress | Scripts/TunnellingBase.cs:601-609 | the loop over the three axes compresses each axis |
| Motion.TiltAngles | Scripts/TunnellingBase.cs:612-618 | the tilt never has yaw; with limits it stays within them; without limits it is the scaled forward and side acceleration, read acute |
| Motion.RawTiltReadsAngle3 | Scripts/TunnellingBase.cs:612 | the unclamped tilt is the `Angle3` of (z, 0, x), read acute |
| Motion.TiltRotationAngles | Scripts/TunnellingBase.cs:619 | each written Euler angle is acute and congruent to the initial orientation plus the tilt |
| Motion.TiltRotationReadsAngle3 | Scripts/TunnellingBase.cs:619 | the written angles equal `(tiltInit + new Angle3(tilt)).eulerAcute` |
| Motion.CounterRotationAngles | Scripts/TunnellingBase.cs:702-709 | an axis with a zero weight, or a zero strength, gets no counter-rotation |
| Motion.Retargeted | Scripts/TunnellingBase.cs:579-597 | the pose map keeps its Transforms and holds both targets, the tilt is afterwards set up for the current switch and target, and the framerate-division cache is untouched |
| Motion.Restarted | Scripts/TunnellingBase.cs:580-587 | no Transform is added or removed and the previous target stays recorded |
| Motion.Adopted | Scripts/TunnellingBase.cs:588-596 | no pose moves, and the current target becomes the one the tilt is set up for |
| Motion.Tilted | Scripts/TunnellingBase.cs:599-620 | only the tilt smoothing and the poses change, the pose map keeps its Transforms and still holds both targets |
| Motion.MovedFailsOnlyOnNullDivision | Scripts/TunnellingBase.cs:577-648 | the motion-effect part of a tick fails exactly when framerate division dereferences a null target |
| Motion.IdleTargetStaysPut | Scripts/TunnellingBase.cs:577-648 | with tilt off, no framerate division and settings unchanged since the last tick, the motion-effect state stays exactly as it was |
| Motion.MovedComposes | Scripts/TunnellingBase.cs:577-648 | the retarget and tilt followed by framerate division, done step by step, is `Moved` |
| Motion.MotionCore.constructor | Scripts/TunnellingBase.cs:162-380 | the declared defaults of every setting and of the motion-effect state |
| Motion.MotionCore.AngularVelocityChannel | Scripts/TunnellingBase.cs:521-533 | when on, the smoothing state takes the normalised angular speed and the contribution is the smoothed value times the strength; when off, nothing changes and it contributes 0 |
| Motion.MotionCore.VelocityChannel | Scripts/TunnellingBase.cs:546-555 | when on, the speed is smoothed and contributes its `VelocityLevel` times the strength; when off, nothing changes |
| Motion.MotionCore.AccelerationChannel | Scripts/TunnellingBase.cs:557-572 | when on, the change in unsmoothed speed per second is normalised and smoothed; when off, nothing changes |
| Motion.MotionCore.RetargetTilt | Scripts/TunnellingBase.cs:579-597 | the motion-effect state becomes `Retargeted` of the old one: with the switch and target unchanged nothing changes; otherwise the smoothing restarts, the old target gets its initial orientation back, the new target's pose is recorded (or no rotation without one), and the tilt is set up for the current settings |
| Motion.MotionCore.RestartTilt | Scripts/TunnellingBase.cs:580-587 | the state becomes `Restarted`: the switch is recorded, the smoothing restarts and the previous target gets back its recorded orientation |
| Motion.MotionCore.AdoptTiltTarget | Scripts/TunnellingBase.cs:588-596 | the state becomes `Adopted`: the new target's local pose and orientation are recorded (no rotation without a target), no pose moves, and it becomes the previous target |
| Motion.MotionCore.SetLocalRotation | Scripts/TunnellingBase.cs:585-586 | only that Transform's local rotation changes, and the scene keeps its Transforms |
| Motion.MotionCore.ApplyTilt | Scripts/TunnellingBase.cs:599-620 | the state becomes `Tilted`: with tilt on and a target, the compressed acceleration is smoothed and the target's rotation becomes the initial orientation plus the tilt, with no other pose and no other field touched; otherwise nothing changes |
| Motion.MotionCore.HoldDividedPose | Scripts/TunnellingBase.cs:624-637 | the outcome is `Held`: between multiples of the divisor the cached world pose is written back; it fails, changing nothing, exactly when that dereferences a null target; whether the cache is due is reported; the divisor is recorded |
| Motion.MotionCore.RefreshDividedPose | Scripts/TunnellingBase.cs:638-647 | the outcome is `Refreshed`: each divided part of the pose is reset to its recorded local value and cached in world space; other poses are untouched; it fails, changing nothing, exactly on a null target |
| Motion.MotionCore.DivideFramerate | Scripts/TunnellingBase.cs:623-648 | the outcome is `Divided`, the hold followed by a refresh when due: it fails exactly when framerate division needs a null target, and the divisor is recorded |
| Motion.MotionCore.UpdateCounterMotion | Scripts/TunnellingBase.cs:697-701 | the counter-rotation grows by this frame's delta only when the strength is positive |
| Motion.MotionCore.MeasureMotion | Scripts/TunnellingBase.cs:497-572 | `Sampled`: each enabled channel took one SmoothDamp step towards this frame's target and a switched-off one kept its state; the sample holds the forward vector, the displacement, the velocity over the floored delta time, the speed, and the sum of the enabled channels' new levels times their strengths |
| Motion.MotionCore.MoveEffectTarget | Scripts/TunnellingBase.cs:577-648 | the outcome is `Moved` of the old state: the retarget, the tilt for this frame's velocity against the cached one, then framerate division, which alone can fail |
| Motion.MotionCore.MeasureAndMove | Scripts/TunnellingBase.cs:497-648 | the measuring of `MeasureMotion`, then the moving of `MoveEffectTarget`: the tick fails exactly when framerate division dereferences a null target, the sample and smoothing are as `Sampled` states either way, and the motion-effect state is `TargetMoved` |
| Motion.MotionCore.CacheMotion | Scripts/TunnellingBase.cs:655-660 | the forward vector, position, speed, velocity and rotation of this frame are kept for the next one |
| Motion.MotionCore.FinishTick | Scripts/TunnellingBase.cs:650-660 | the counter-rotation advances by the rotation since the last frame (when on), then this frame's motion is cached |
| Motion.MotionCore.Conclude | Scripts/TunnellingBase.cs:650-681 | from a sample taken against the motion cached before the tick, the strength is `EffectStrength` of the forced value or of the channel sum, and this frame's motion is cached (`TickOutcome`) |
| Motion.MotionCore.TrackTarget | Scripts/TunnellingBase.cs:497-681 | a present target: the tick completes exactly when framerate division finds its target; the channels are smoothed either way and the motion-effect state is `TargetMoved`; a completed tick returns `EffectStrength` of the forced value or of the channel sum, advances the counter-rotation and caches this frame's motion |
| Motion.MotionCore.CalculateMotion | Scripts/TunnellingBase.cs:497-681 | a null motion target changes nothing; otherwise each enabled channel takes one SmoothDamp step towards this frame's measured target and a switched-off one keeps its state, the motion-effect target moves as `Moved` says, and the tick completes exactly when framerate division finds its target; a completed tick returns `EffectStrength` of the forced value or, without one, of the sum of the enabled channels' smoothed levels times their strengths, advances the counter-rotation, and caches this frame's forward vector, position, rotation, velocity and speed |
| Motion.MotionCore.ResetMotionState | Scripts/TunnellingBase.cs:476-481 | the target's forward vector and position are cached, and all smoothing is cleared |
| Motion.MotionCore.ResetCounterMotion | Scripts/TunnellingBase.cs:487-490 | no counter-rotation is accumulated, and the target's rotation is the reference |
| Motion.MotionCore.ResetMotion | Scripts/TunnellingBase.cs:476-483 | without a motion target it throws before anything changes; otherwise the cached forward vector, position and rotation are the target's, and every smoothing value and the counter-rotation are cleared: the result depends on the target's pose alone |
| Motion.MotionCore.ApplyLookSettings | Scripts/TunnellingBase.cs:420-424 | each look setting becomes the preset's when its override getter is true, and keeps its value otherwise |
| Motion.MotionCore.ApplyChannelSettings | Scripts/TunnellingBase.cs:426-448 | each channel's five settings are replaced together or not at all |
| Motion.MotionCore.ApplyCounterMotionSettings | Scripts/TunnellingBase.cs:450-453 | counter-motion, per-axis weights and tilt follow their override flags |
| Motion.MotionCore.ApplyFramerateDivisionSettings | Scripts/TunnellingBase.cs:455-457 | the divisor and both division switches follow their override flags |
| Motion.MotionCore.ApplyPresetBase | Scripts/TunnellingBase.cs:419-458 | every base setting is the preset's exactly when its override getter is true, and keeps its old value otherwise |
| Motion.MotionCore.OverrideAllTakesEveryBaseSetting | Scripts/TunnellingPresetBase.cs:69-87 | after applying a preset with `overrideAll`, every look and channel setting equals the preset's |
| Presets.OverrideAllForcesBaseOverrides | Scripts/TunnellingPresetBase.cs:69-87 | `overrideAll` makes every base override getter true; without it each getter is its own flag |
| Presets.DefaultPresetBase | Scripts/TunnellingPresetBase.cs:32-67 | a new asset overrides everything without `overrideAll`: coverage 0.75, feather 0.1, black, strengths 1 |
| ImagePresets.OverrideAllSparesOnlyOverlay | Scripts/TunnellingPreset.cs:19-160 | `overrideAll` turns on every image override getter except the overlay's, which follows its own flag |
| ImagePresets.DefaultImagePreset | Scripts/TunnellingPreset.cs:14-160 | a new asset's values and flags: overlay off and not overridden, COLOR, no mask, blur 3/3.0/3 passes/FIVE, fog 0.05/2/1, iris on |
| ImagePresets.ApplyImagePresetIdempotent | Scripts/TunnellingImageBase.cs:460-483 | applying the same image preset twice equals applying it once |
| ImagePresets.OverrideAllTakesEveryImageSetting | Scripts/TunnellingImageBase.cs:460-483 | with `overrideAll`, every image setting becomes the preset's except the overlay, which is taken only when its own flag is set |
| MobilePresets.OverrideAllReachesOnlySkybox | Scripts/TunnellingPresetMobile.cs:38-49 | `overrideAll` reaches the skybox override only; the other mobile getters are their own flags |
| MobilePresets.DefaultMobilePreset | Scripts/TunnellingPresetMobile.cs:13-36 | a new asset: no skybox, no mask, stencil reference 1, mask 255, bias 1, every override on |
| Cameras.Added | Scripts/TunnellingMobile.cs:214-221 | one more registration of that buffer at that event, and no other change |
| Cameras.Removed | Scripts/TunnellingMobile.cs:222-229 | no registration of that buffer at that event is left, and no other change |
| Cameras.RemovedUndoesAdded | Scripts/TunnellingMobile.cs:214-229 | removing after adding leaves what removing alone leaves, and restores the camera when the buffer was absent |
| ImagePolicy.KeywordsFor | Scripts/TunnellingImageBase.cs:685-732 | each keyword is on exactly for the modes that enable it |
| ImagePolicy.KeywordsAgreeWithPredicates | Scripts/TunnellingImageBase.cs:226-243 | mask keyword ⇔ mask in use, background keyword ⇔ background texture in use; constant/invert only with the mask; the iris is only drawn without mask or overlay |
| ImagePolicy.GetMsaa | Scripts/TunnellingImageBase.cs:760-779 | AUTO takes the source's sample count; the others give 1, 2, 4 or 8 |
| ImagePolicy.TruncDivTruncates | Scripts/TunnellingImageBase.cs:793-794 | C# division agrees with Euclidean division on non-negative operands and is odd in each operand (-7 / 2 is -3) |
| ImagePolicy.DownsampledSizeFits | Scripts/TunnellingImageBase.cs:793-794 | the downsampled size is the largest that fits `downsample + 1` times into the source, and is the source size without downsampling |
| ImagePolicy.MaskTransitionTracksMode | Scripts/TunnellingImageBase.cs:888-897 | from a consistent state, an enabled reset leaves the registration matching the mode; a disabled one leaves nothing; the buffer is added only when enabled with a mask |
| ImagePolicy.IrisTransitionTracksDrawIris | Scripts/TunnellingImageBase.cs:533-541 | from a consistent state the registration matches the drawability afterwards; it is never added twice nor removed when absent |
| ImagePolicy.BlurFactors | Scripts/TunnellingImageBase.cs:733-753 | one, two or three strictly increasing positive sample offsets for 5, 9 and 13 taps |
| ImagePolicy.TunnelColor | Scripts/TunnellingImageBase.cs:497-509 | COLOR takes the effect colour; CAGE_ONLY keeps the old colour; the other modes take the effect colour or white, with the effect's alpha |
| ImagePolicy.TunnelMaterialFor | Scripts/TunnellingImageBase.cs:492-518 | the aperture is the strength with the feather inside it, the overlay is the component's, the colour is `TunnelColor`'s, and the effect skybox goes into the slot of the mode that shows one while the other slot keeps its texture |
| ImagePolicy.MaskUpdate | Scripts/TunnellingImageBase.cs:525-527 | afterwards the mode has been acted upon; a registration that matched the old mode matches the new one, and any change of registration is towards the new mode |
| ImagePolicy.CounterVelocityStep | Scripts/TunnellingImageBase.cs:667-671 | an axis with zero weight, or a zero strength, does not move; unit weights scale the motion by the strength |
| RenderTextures.TexturesFitSource | Scripts/TunnellingImageBase.cs:793-850 | the background and blur textures are no larger than the source, are its size without downsampling, and follow its MSAA on AUTO |
| RenderTextures.Recreate | Scripts/TunnellingImageBase.cs:780-865 | due textures are re-created in order; a zero divisor stops the sequence there; the source size is recorded only when all went through |
| RenderTextures.UpdateAsWrittenSettles | Scripts/TunnellingImageBase.cs:780-865 | the code's update fails exactly on a zero divisor for a due texture; once completed, nothing is due, so a repeat changes nothing |
| RenderTextures.UpdateMatchesSource | Scripts/TunnellingImageBase.cs:780-865 | the corrected update leaves every texture in use matching the source, leaves matching textures alone, and fails exactly on a zero divisor for a texture in use |
| RenderTextures.StaleBackgroundAsWritten | Scripts/TunnellingImageBase.cs:781-787 | a concrete frame sequence after which the code keeps a 100-pixel background texture for a 200-pixel source |
| RenderTextures.BackgroundFollowsSource | Scripts/TunnellingImageBase.cs:780-865 | with the corrected update, the same frames give a 200-pixel background texture |
| MaskObjects.FirstIndex | Scripts/TunnellingImageBase.cs:414 | the index holds the element and no earlier position does |
| MaskObjects.RemoveFirst | Scripts/TunnellingImageBase.cs:414 | `List.Remove` takes out only the first occurrence, and leaves a list without the element unchanged |
| MaskObjects.RemoveFirstMultiset | Scripts/TunnellingImageBase.cs:414 | removing a present element takes away exactly one copy |
| MaskObjects.RemoveEachMultiset | Scripts/TunnellingImageBase.cs:413-420 | removing available elements one after another takes away exactly those copies |
| MaskObjects.Listed | Scripts/TunnellingImageBase.cs:398-404 | the renderer itself comes first, then, when requested, what `GetComponentsInChildren` returns, which holds the renderer itself again |
| MaskObjects.AddThenRemoveRestores | Scripts/TunnellingImageBase.cs:397-423 | adding and then removing the same renderers restores the list's contents, though not always its order |
| MaskObjects.RemovingAbsentRendererIsNoOp | Scripts/TunnellingImageBase.cs:413-420 | removing renderers that are not listed changes nothing |
| MaskObjects.MaskList.constructor | Scripts/TunnellingMobile.cs:90 | the list starts empty |
| MaskObjects.MaskList.Add | Scripts/TunnellingImageBase.cs:398-404 | the renderer and then the `GetComponentsInChildren` list (the renderer again first) are appended in order |
| MaskObjects.MaskList.Remove | Scripts/TunnellingImageBase.cs:414-420 | the first occurrence of the renderer and then of each renderer of the `GetComponentsInChildren` list is removed, so both copies of the renderer go |
| Image.ImageEffect.constructor | Scripts/TunnellingImageBase.cs:296-336 | a disabled component with nothing registered, default modes, keywords that match them, and no render textures |
| Image.ImageEffect.UpdateKeywords | Scripts/TunnellingImageBase.cs:685-732 | the keywords follow the current mask and background modes |
| Image.ImageEffect.ToggleMaskCommandBuffer | Scripts/TunnellingImageBase.cs:899-907 | adding registers the buffer once more; removing leaves none; the flag records which happened |
| Image.ImageEffect.ToggleIrisCommandBuffer | Scripts/TunnellingImageBase.cs:908-916 | the same for the iris buffer |
| Image.ImageEffect.ResetMaskCommandBuffer | Scripts/TunnellingImageBase.cs:867-897 | the buffer exists and draws the current list; registration and recorded mode follow `MaskTransition`; a disabled component keeps none |
| Image.ImageEffect.AddObjectToMask | Scripts/TunnellingImageBase.cs:397-407 | the list grows by the renderers in order, and the buffer is rebuilt from it and registered by `MaskTransition` |
| Image.ImageEffect.RemoveObjectFromMask | Scripts/TunnellingImageBase.cs:413-423 | the first occurrences leave the list, and the buffer is rebuilt from it |
| Image.ImageEffect.ResetCounterMotion | Scripts/TunnellingImageBase.cs:446-452 | no counter-rotation or counter-velocity is left, and a present cage returns to its initial local position |
| Image.CounterReset | Scripts/TunnellingImageBase.cs:446-452 | no counter-rotation, no offset, the cage's rotation kept and a present cage at its initial local position |
| Image.CounterMotionMovesCageOnlyInReal | Scripts/TunnellingImageBase.cs:659-683 | `CounterMoved` fails exactly without a cage and then moves nothing but the counter-rotation; the counter-rotation grows only with a positive strength; the offset moves only with the counter-velocity on; only REAL mode moves the cage, to the offset |
| Image.CounterChecked | Scripts/TunnellingImageBase.cs:548-565 | a mode change always resets; in REAL mode the offset is afterwards zero or inside the reset distance; the state is either unchanged or `CounterReset` |
| Image.ImageEffect.UpdateCounterMotion | Scripts/TunnellingImageBase.cs:659-683 | the counter-motion state becomes `CounterMoved` of the old one (the base counter-rotation, then, with a cage, the cage turned against the rotation and the offset moved per counter-velocity mode), and the update fails exactly without a cage |
| Image.ImageEffect.FinishTick | Scripts/TunnellingImageBase.cs:659-683 | it fails exactly when counter-motion is on without a cage; the counter-motion state becomes `CounterTicked` for the motion since the last tick; the channel sample stands, and a completed tick caches this frame's motion |
| Image.ImageEffect.ApplyCounterMotion | Scripts/TunnellingBase.cs:650-652 | the counter-motion step of a tick: it fails exactly when counter-motion is on without a cage, and the state becomes `CounterTicked` for the motion since the last tick |
| Image.ImageEffect.Conclude | Scripts/TunnellingImageBase.cs:659-683 | it fails exactly when counter-motion is on without a cage; the counter-motion state becomes `CounterTicked`; the outcome is `TickOutcome`: a completed tick's strength is `EffectStrength` of the forced value or of the channel sum and its motion is cached |
| Image.ImageEffect.TrackTarget | Scripts/TunnellingBase.cs:497-681 | a present target: the tick completes exactly when framerate division finds its target and counter-motion, when on, finds the cage; the outcome is `TickOutcome`, the motion-effect state `TargetMoved`, and the counter-motion state `CounterTicked` unless framerate division failed first, when it is unchanged |
| Image.ImageEffect.CalculateMotion | Scripts/TunnellingBase.cs:497-681 | a null target changes nothing; otherwise the tick completes exactly when framerate division finds its target and counter-motion, when on, finds the cage, with the outcome `TickOutcome`, the motion-effect state `TargetMoved` and the counter-motion state `CounterTicked` unless framerate division failed first |
| Image.ImageEffect.SetTunnelMaterial | Scripts/TunnellingImageBase.cs:492-518 | the tunnel material becomes `TunnelMaterialFor` the strength: aperture, feather, overlay, `TunnelColor` colour and the skybox in the slot of the background mode that shows one |
| Image.ImageEffect.UpdateMaskState | Scripts/TunnellingImageBase.cs:525-527 | on a mode change the buffer is reset by `MaskTransition`; otherwise nothing changes; an enabled component then records the current mode |
| Image.ImageEffect.UpdateBlurKernel | Scripts/TunnellingImageBase.cs:733-759 | with a blur texture, every offset is texel size times radius times its factor, and the kernel and radius are recorded; without one, nothing changes |
| Image.ImageEffect.RefreshBlurKernel | Scripts/TunnellingImageBase.cs:529-531 | a stale kernel is recomputed and a fresh one is kept; with a blur texture it is fresh afterwards |
| Image.ImageEffect.ApplyTextureUpdate | Scripts/TunnellingImageBase.cs:780-865 | the textures are replaced; a re-created mask texture resets the mask buffer, and re-created blur textures recompute the kernel |
| Image.ImageEffect.UpdateRenderTexturesAsWritten | Scripts/TunnellingImageBase.cs:780-865 | the textures become the code's update, and a completed update leaves nothing due by the code's test |
| Image.ImageEffect.UpdateRenderTextures | Scripts/TunnellingImageBase.cs:780-865 | the textures become the corrected update, and a completed update leaves every texture in use matching the source |
| Image.ImageEffect.UpdateIris | Scripts/TunnellingImageBase.cs:533-546 | the iris registration and recorded drawability follow `IrisTransition`, a consistent count stays consistent, and a drawn iris's aperture is 0.98 of the strength with the feather inside it; otherwise the aperture keeps its value |
| Image.ImageEffect.CheckCounterVelocityReset | Scripts/TunnellingImageBase.cs:548-565 | a reset happens exactly when `CounterVelocityResetDue` (a mode change, or in REAL mode the time or distance limit); the counter-motion state becomes `CounterChecked`, the deadline `NextResetDeadline`, the mode is recorded, and a reset re-caches the target's rotation |
| Image.ImageEffect.UpdateMaterials | Scripts/TunnellingImageBase.cs:492-531 | the tunnel material becomes `TunnelMaterialFor` the strength, a present blur texture leaves the kernel fresh, and the tick's outcome stands |
| Image.ImageEffect.UpdateCameraBuffers | Scripts/TunnellingImageBase.cs:525-565 | the mask follows `MaskUpdate`, the iris `IrisTransition` and is registered exactly when drawable, with a drawn iris's aperture 0.98 of the strength; a counter-velocity reset happens exactly when due and leaves the state `CounterChecked`, the deadline `NextResetDeadline` and the mode recorded; the tick's outcome stands |
| Image.ImageEffect.UpdateMaskAndIris | Scripts/TunnellingImageBase.cs:525-546 | the mask follows `MaskUpdate`, the iris `IrisTransition` and is registered exactly when drawable, a drawn iris's aperture is 0.98 of the strength, and the tick's outcome stands |
| Image.ImageEffect.UpdateCounterVelocity | Scripts/TunnellingImageBase.cs:548-565 | a reset happens exactly when `CounterVelocityResetDue`; the state becomes `CounterChecked`, the deadline `NextResetDeadline`, the mode is recorded, and the tick's outcome stands |
| Image.ImageEffect.AfterMotion | Scripts/TunnellingImageBase.cs:493-565 | the shader part of a completed tick: the tunnel material is `TunnelMaterialFor` the strength, the mask follows `MaskUpdate`, the blur kernel is fresh, the iris follows `IrisTransition` and is registered exactly when drawable with a 0.98 aperture, and counter-velocity is `CounterChecked` with its deadline and mode; the tick's outcome and the motion-effect target stand |
| Image.ImageEffect.TickTarget | Scripts/TunnellingImageBase.cs:492-565 | a present target: the motion tick as `TrackTarget` states its outcome and target state; when it completed, the strength lies in [0, 1], the tunnel aperture is the strength with the feather, the modes are recorded, the iris is registered exactly when drawable and the blur kernel is fresh |
| Image.ImageEffect.Tick | Scripts/TunnellingImageBase.cs:492-565 | a null target aborts and changes no motion state; otherwise the same as `TickTarget` |
| Image.ImageEffect.LateUpdate | Scripts/TunnellingImageBase.cs:488-574 | the keywords match the modes; a null target aborts without changing the motion state; otherwise the outcome is `TickOutcome`, the target `TargetMoved`, the tick completes exactly when framerate division and counter-motion find their objects, and a completed tick leaves the aperture at the strength, the modes recorded, the iris registered exactly when drawable and the blur kernel fresh |
| Image.ImageEffect.ResetMotion | Scripts/TunnellingBase.cs:476-483 | without a motion target nothing changes (the code throws first); otherwise `MotionReset`, no counter-velocity offset, and a present cage back at its initial local position |
| Image.ImageEffect.OnEnable | Scripts/TunnellingImageBase.cs:337-348 | the corrected enable: with a motion target the full reset of `ResetMotion`, the mask buffer registered exactly when a mask is used and built, the iris exactly when drawable, and the invariant restored; without one nothing of the motion state changes and nothing is registered; enabled either way |
| Image.ImageEffect.RegisterBuffers | Scripts/TunnellingImageBase.cs:339-347 | the mask buffer is registered exactly when a mask is used and built, the iris buffer exactly when drawable, and the component is enabled and consistent |
| Image.ImageEffect.OnEnableAsWritten | Scripts/TunnellingImageBase.cs:337-348 | the code's enable: with a motion target the full motion reset and one more registration of each buffer whose guard holds, the iris flag set if drawable; without one the registrations and motion state are unchanged; enabled either way |
| Image.ImageEffect.OnDisable | Scripts/TunnellingImageBase.cs:349-356 | the corrected disable: nothing stays registered on the camera |
| Image.ImageEffect.OnDisableAsWritten | Scripts/TunnellingImageBase.cs:349-356 | the code's disable: the iris is removed only while it is still drawable |
| Image.ImageEffect.ApplyPreset | Scripts/TunnellingImageBase.cs:457-484 | the base settings follow `ApplyPresetBase`, and the image settings become `ApplyImagePreset` of the old ones |
| Image.ImageEffect.ApplyImageSettings | Scripts/TunnellingImageBase.cs:460-483 | each image setting is the preset's exactly when its override getter is true |
| Image.DisableAfterMaskOnAsWritten | Scripts/TunnellingImageBase.cs:345-356 | a concrete lifecycle in which the code leaves the iris on a disabled camera and registers it twice after re-enabling |
| Image.DisableAfterMaskOn | Scripts/TunnellingImageBase.cs:337-356 | the same steps with the corrected lifecycle: nothing registered while disabled, one registration after |
| Image.MaskOnBeforeFirstTickAsWritten | Scripts/TunnellingImageBase.cs:345-347 | a concrete start-up in which the code keeps the iris registered although it can no longer be drawn |
| Image.MaskOnBeforeFirstTick | Scripts/TunnellingImageBase.cs:533-541 | the same steps with the corrected enable: the iris step removes the buffer |
| Mobile.WithBuffersSet | Scripts/TunnellingMobile.cs:214-221 | the mask or depth-reject buffer is added, then the effect buffer |
| Mobile.UnsetUndoesSet | Scripts/TunnellingMobile.cs:214-229 | unsetting with the flag used for setting restores the camera |
| Mobile.MaskSwitchRegistersNewBuffers | Scripts/TunnellingMobile.cs:232-242 | a transition from the recorded state leaves exactly the buffers of the new state |
| Mobile.UnsetWithOtherFlagLeavesOneBehind | Scripts/TunnellingMobile.cs:214-229 | unsetting with the other flag leaves the mask or depth-reject buffer behind |
| Mobile.EffectPasses | Scripts/TunnellingMobile.cs:203-209 | the iris passes are consecutive: 3 and 4 with the mask, 1 and 2 without |
| Mobile.MobileEffect.constructor | Scripts/TunnellingMobile.cs:152-183 | a disabled component with nothing registered, the mask state not yet recorded, and the declared stencil defaults |
| Mobile.MobileEffect.SetCommandBuffers | Scripts/TunnellingMobile.cs:214-221 | the registrations grow by the buffers for the flag |
| Mobile.MobileEffect.UnsetCommandBuffers | Scripts/TunnellingMobile.cs:222-229 | the buffers for the flag are removed |
| Mobile.MobileEffect.ResetEffectCommandBuffer | Scripts/TunnellingMobile.cs:203-209 | the effect buffer draws the passes for the flag |
| Mobile.MobileEffect.ResetMaskCommandBuffer | Scripts/TunnellingMobile.cs:210-213 | the mask buffer draws the current list |
| Mobile.MobileEffect.OnEnable | Scripts/TunnellingMobile.cs:184-187 | the corrected enable: with a motion target the full `ResetMotion`, the camera holds exactly the buffers for `useMask`, and that state is recorded; without one the motion state is unchanged and nothing is registered; enabled either way |
| Mobile.MobileEffect.OnEnableAsWritten | Scripts/TunnellingMobile.cs:184-187 | the code's enable: with a motion target the full motion reset and the buffers for `useMask` added, the recorded state left alone; without one nothing changes but the flag |
| Mobile.MobileEffect.OnDisable | Scripts/TunnellingMobile.cs:188-190 | the corrected disable: nothing stays registered |
| Mobile.MobileEffect.OnDisableAsWritten | Scripts/TunnellingMobile.cs:188-190 | the code's disable: the buffers for the current `useMask` are removed |
| Mobile.MobileEffect.UpdateMaskState | Scripts/TunnellingMobile.cs:232-242 | on a change, the old state's buffers are removed, both buffers are rebuilt and the new ones added; the state is recorded either way |
| Mobile.MobileEffect.PrepareMask | Scripts/TunnellingMobile.cs:232-242 | on a consistent enabled component, the camera afterwards holds exactly the buffers for the current `useMask` |
| Mobile.MobileEffect.PrepareMaskAndStencil | Scripts/TunnellingMobile.cs:232-248 | the camera holds exactly the buffers for `useMask` with that state recorded; with the mask the stencil globals take the settings and the negated bias, without it they are untouched |
| Mobile.MobileEffect.SetStencilGlobals | Scripts/TunnellingMobile.cs:244-248 | with the mask, the stencil globals take the settings and the bias is negated; without it they are untouched |
| Mobile.MobileEffect.DrawIris | Scripts/TunnellingMobile.cs:251-261 | the iris takes the radius, the feather, a colour that is white only for a plain skybox, and the skybox and keyword exactly in skybox mode |
| Mobile.MobileEffect.LateUpdate | Scripts/TunnellingMobile.cs:231-262 | the camera holds exactly the buffers for `useMask` and the stencil globals follow it, even after a null reference; a null target aborts; otherwise the channels are measured, the target `TargetMoved`, the tick completes exactly when framerate division finds its target, and a completed tick's strength is `EffectStrength` of the forced value or of the channel sum, its motion cached and the iris drawn with it |
| Mobile.MobileEffect.TickMotion | Scripts/TunnellingMobile.cs:250-261 | a null target aborts; otherwise the channels are measured, the target `TargetMoved`, the tick completes exactly when framerate division finds its target, and a completed tick's strength is `EffectStrength` of the forced value or of the channel sum, with the counter-rotation advanced, the motion cached and the iris aperture, colour and skybox set from it |
| Mobile.MobileEffect.ApplyPreset | Scripts/TunnellingMobile.cs:98-116 | the base settings follow `ApplyPresetBase`, each mobile setting follows its override getter, and no other field of the motion core changes |
| Mobile.MobileEffect.ApplyMobileSettings | Scripts/TunnellingMobile.cs:101-115 | each mobile setting is the preset's exactly when its getter is true; the bias becomes a float; drawing before transparency is not copied |
| Mobile.MobileEffect.AddObjectToMask | Scripts/TunnellingMobile.cs:122-132 | the list grows by the renderers in order, and the mask buffer draws it |
| Mobile.MobileEffect.RemoveObjectFromMask | Scripts/TunnellingMobile.cs:138-148 | the first occurrences leave the list, and the mask buffer draws it |
| Mobile.StartUpWithMaskAsWritten | Scripts/TunnellingMobile.cs:184-242 | a concrete start-up with the mask on, after which the code has the mask buffer registered twice |
| Mobile.DisableAfterMaskChangeAsWritten | Scripts/TunnellingMobile.cs:188-190 | a concrete lifecycle in which the code leaves the depth-reject buffer on a disabled camera |

## Left out

- Rendering itself is not modelled, only the state it depends on. This covers:
  - `Draw`'s blits and blur passes;
  - `OnPreRender`;
  - the eye matrices (`UpdateEyeMatrices`, `CorrectEyeMatrices`, `ApplyEyeMatrices`);
  - `FillMaskBuffer`'s per-submesh draw calls. A mask buffer is modelled as the list of renderers it draws.
- Shader globals for fog and the cage matrices, and the `_hasDrawnThisFrame` flag, are not modelled. They are written every frame and read only by shaders. `UpdateRenderTextures` is modelled as the first `Draw` of a frame.
- `UpdateCage` is not modelled. Neither are its calls from `OnEnable` and `LateUpdate`, or its exception for a cage renderer without a MeshFilter. It only caches renderers for drawing.
- `OnDestroy`, `ReleaseRT`, the `instance` singleton and `Awake`'s warning are not modelled: they are resource and diagnostic bookkeeping. For the same reason, releasing a render texture before a failed re-creation is not modelled.
- Floats are modelled as reals. 32-bit rounding, overflow and NaN are not modelled, and neither is the exact tolerance of `Mathf.Approximately`. It stays an engine primitive, and `UnityMath.Approximately` adds only that every value is approximately equal to itself; every use goes through that one predicate.
- The engine maths is taken as given, with no further properties: SmoothDamp, vector angles, quaternions, Euler conversion, `ln`, transforms and texel sizes. Lemmas that need a property of one of them state it as a hypothesis (`LnBounded`).
- COVERAGE_MIN is 0.65. The PS4 value 0.40 is not modelled.
- The editor-only debug switch that turns every channel on is not modelled. The editor's forced effect value is modelled.
- The cage's Transform is kept apart from the motion-effect target's pose. The model assumes the cage is not the motion-effect target, and not its parent.
- Registrations count only the component's own buffers. Other users of the camera are not modelled.
- The mobile registry removes every copy of a buffer on removal. Unity's behaviour for a buffer registered twice is not documented in the code.
- Image.ImageEffect.TickTarget: after a completed tick it restates only the facts about the new state: the outcome, the motion-effect target, the strength's range, the aperture, the recorded modes, the iris registration and the fresh blur kernel. The relations to the old state are not restated, because proving them across the whole tick is too costly: the mask step (`MaskUpdate`), the iris step (`IrisTransition`), the iris aperture, the counter-velocity check (`CounterChecked`, `NextResetDeadline`), and the counter-motion state of a tick that failed at the cage. `Image.ImageEffect.TrackTarget` and `Image.ImageEffect.AfterMotion` state each of these for their half of the tick.
- Image.ImageEffect.Tick: the same limits as `TickTarget`, which it calls for a present target.
- Image.ImageEffect.LateUpdate: the same limits as `TickTarget`, which it calls after the keywords.
- Image.ImageEffect.AfterMotion: it runs the camera-buffer steps before the material steps. The two touch disjoint state, so the outcome is the C# order's. The counter-velocity reset flag is a local in the C# and is not returned; `CounterChecked` states its effect.
- `Image.ImageEffect.ApplyPreset`: the settings are applied as one computed record. The C# applies one `if` per setting; the final values are the same.
- `TunnellingPresetBase.cs` has no counter-motion, tilt or framerate-division fields, although `ApplyPresetBase` reads them. The model gives them a `MotionEffectsPreset` of values and override flags.
- Scripts/Tunnelling.cs and Scripts/TunnellingOpaque.cs are not part of this model. They are the concrete subclasses that choose the mask event.
- Scripts/TunnellingMobileURP.cs, Scripts/TunnellingMaskObject.cs, the editor scripts and the example movement script are not part of this model.

## Findings

| source | as written | input that shows it | evidently intended | confidence | as-written member | corrected member |
|---|---|---|---|---|---|---|
| Scripts/TunnellingBase.cs:933-944 | `ToAngle(a, ANGLE) < b` is a float compared with an `Angle`, so it resolves to the same float-first operator and recurses forever | any `f < angle` with a float on the left | convert the float, then compare the two angles | not executed | Angles.FloatLessAsWritten | Angles.FloatComparisonsMatchAngleComparisons |
| Scripts/TunnellingMobile.cs:184-187 | `OnEnable` registers the buffers for `useMask` but leaves `_wasUsingMask` false | `useMask` on at start-up: after the first `LateUpdate` the mask buffer is registered twice | record the state that was registered | not executed | Mobile.StartUpWithMaskAsWritten | Mobile.MobileEffect.OnEnable |
| Scripts/TunnellingMobile.cs:188-190 | `OnDisable` removes the buffers for the current `useMask`, not for the registered state | switch `useMask` on, then disable before `LateUpdate`: the depth-reject buffer stays | remove what was registered (`_wasUsingMask`) | not executed | Mobile.DisableAfterMaskChangeAsWritten | Mobile.MobileEffect.OnDisable |
| Scripts/TunnellingImageBase.cs:354-355 | the iris buffer is removed only while `_drawIris` still holds | iris registered, mask switched on, disabled: the iris stays, and is registered twice on re-enable | remove it whenever the camera has it | not executed | Image.DisableAfterMaskOnAsWritten | Image.DisableAfterMaskOn |
| Scripts/TunnellingImageBase.cs:345-347 | `OnEnable` registers the iris without setting `_wasDrawingIrisEarly` | enabled with the iris drawable, then the mask switched on before the first `LateUpdate`: the iris stays registered | record the drawability that was registered | not executed | Image.MaskOnBeforeFirstTickAsWritten | Image.MaskOnBeforeFirstTick |
| Scripts/TunnellingImageBase.cs:781-787 | one recorded source size for all render textures, so re-creating one marks the others as current | background at 100 px; a masked frame at 200 px; background again: the background texture stays 100 px | record the size per texture, or compare each texture with the source | not executed | RenderTextures.StaleBackgroundAsWritten | RenderTextures.BackgroundFollowsSource |
