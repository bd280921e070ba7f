/**
 * Preset for the image-effect backends: the base preset plus background, cage, fog,
 * mask, blur, counter-velocity and iris settings. Every image override getter honours
 * `overrideAll` except the one for the overlay, which only its own flag switches on.
 */
module ImagePresets {
  import opened UnityMath
  import opened Modes
  import opened Presets

  datatype ImagePreset = ImagePreset(
    base: PresetBase,
    effectOverlay: real, effectOverlayFlag: bool,
    backgroundMode: BackgroundMode, backgroundModeFlag: bool,
    cageDownsample: int, cageDownsampleFlag: bool,
    cageAntiAliasing: Msaa, cageAntiAliasingFlag: bool,
    cageUpdateEveryFrame: bool, cageUpdateEveryFrameFlag: bool,
    cageFogDensity: real, cageFogDensityFlag: bool,
    cageFogPower: real, cageFogPowerFlag: bool,
    cageFogBlend: real, cageFogBlendFlag: bool,
    maskMode: MaskMode, maskModeFlag: bool,
    blurDownsample: int, blurDownsampleFlag: bool,
    blurDistance: real, blurDistanceFlag: bool,
    blurPasses: int, blurPassesFlag: bool,
    blurSamples: BlurKernel, blurSamplesFlag: bool,
    counterVelocityMode: CounterVelocityMode, counterVelocityModeFlag: bool,
    counterVelocityResetDistance: real, counterVelocityResetDistanceFlag: bool,
    counterVelocityResetTime: real, counterVelocityResetTimeFlag: bool,
    counterVelocityStrength: real, counterVelocityStrengthFlag: bool,
    counterVelocityPerAxis: Vec3, counterVelocityPerAxisFlag: bool,
    irisZRejection: bool, irisZRejectionFlag: bool)
  {
    /** The overlay override ignores `overrideAll`. */
    predicate OverrideEffectOverlay() { effectOverlayFlag }
    predicate OverrideBackgroundMode() { backgroundModeFlag || base.overrideAll }
    predicate OverrideCageDownsample() { cageDownsampleFlag || base.overrideAll }
    predicate OverrideCageAntiAliasing() { cageAntiAliasingFlag || base.overrideAll }
    predicate OverrideCageUpdateEveryFrame() { cageUpdateEveryFrameFlag || base.overrideAll }
    predicate OverrideCageFogDensity() { cageFogDensityFlag || base.overrideAll }
    predicate OverrideCageFogPower() { cageFogPowerFlag || base.overrideAll }
    predicate OverrideCageFogBlend() { cageFogBlendFlag || base.overrideAll }
    predicate OverrideMaskMode() { maskModeFlag || base.overrideAll }
    predicate OverrideBlurDownsample() { blurDownsampleFlag || base.overrideAll }
    predicate OverrideBlurDistance() { blurDistanceFlag || base.overrideAll }
    predicate OverrideBlurPasses() { blurPassesFlag || base.overrideAll }
    predicate OverrideBlurSamples() { blurSamplesFlag || base.overrideAll }
    predicate OverrideCounterVelocityMode() { counterVelocityModeFlag || base.overrideAll }
    predicate OverrideCounterVelocityResetDistance() { counterVelocityResetDistanceFlag || base.overrideAll }
    predicate OverrideCounterVelocityResetTime() { counterVelocityResetTimeFlag || base.overrideAll }
    predicate OverrideCounterVelocityStrength() { counterVelocityStrengthFlag || base.overrideAll }
    predicate OverrideCounterVelocityPerAxis() { counterVelocityPerAxisFlag || base.overrideAll }
    predicate OverrideIrisZRejection() { irisZRejectionFlag || base.overrideAll }

    /** Every image override getter other than the overlay's is on. */
    predicate OverridesEveryImageSetting() {
      OverrideBackgroundMode() && OverrideCageDownsample() && OverrideCageAntiAliasing()
      && OverrideCageUpdateEveryFrame() && OverrideCageFogDensity() && OverrideCageFogPower()
      && OverrideCageFogBlend() && OverrideMaskMode() && OverrideBlurDownsample()
      && OverrideBlurDistance() && OverrideBlurPasses() && OverrideBlurSamples()
      && OverrideCounterVelocityMode() && OverrideCounterVelocityResetDistance()
      && OverrideCounterVelocityResetTime() && OverrideCounterVelocityStrength()
      && OverrideCounterVelocityPerAxis() && OverrideIrisZRejection()
    }
  }

  /**
   * `overrideAll` switches on every base and image override getter except the overlay's,
   * which always follows its own flag.
   */
  lemma OverrideAllSparesOnlyOverlay(p: ImagePreset)
    ensures p.base.overrideAll ==> p.base.OverridesEverything() && p.OverridesEveryImageSetting()
    ensures p.OverrideEffectOverlay() == p.effectOverlayFlag
    ensures p.base.overrideAll && !p.effectOverlayFlag ==> !p.OverrideEffectOverlay()
  {
    OverrideAllForcesBaseOverrides(p.base);
  }

  /** A freshly created image preset. */
  function DefaultImagePreset(motionEffects: MotionEffectsPreset): (p: ImagePreset)
    ensures p.base == DefaultPresetBase(motionEffects)
    ensures !p.OverrideEffectOverlay() && p.OverridesEveryImageSetting()
    ensures p.effectOverlay == 0.0 && p.backgroundMode == BackgroundMode.COLOR && p.cageDownsample == 0
    ensures p.cageAntiAliasing == Msaa.AUTO && !p.cageUpdateEveryFrame
    ensures p.cageFogDensity == 0.05 && p.cageFogPower == 2.0 && p.cageFogBlend == 1.0
    ensures p.maskMode == MaskMode.OFF
    ensures p.blurDownsample == 3 && p.blurDistance == 3.0 && p.blurPasses == 3 && p.blurSamples == BlurKernel.FIVE
    ensures p.counterVelocityMode == CounterVelocityMode.OFF
    ensures p.counterVelocityStrength == 1.0 && p.counterVelocityPerAxis == One3
    ensures p.irisZRejection
  {
    ImagePreset(DefaultPresetBase(motionEffects),
      0.0, false,
      BackgroundMode.COLOR, true,
      0, true,
      Msaa.AUTO, true,
      false, true,
      0.05, true, 2.0, true, 1.0, true,
      MaskMode.OFF, true,
      3, true, 3.0, true, 3, true, BlurKernel.FIVE, true,
      CounterVelocityMode.OFF, true, 0.0, true, 0.0, true, 1.0, true, One3, true,
      true, true)
  }

  /** The image settings a preset can override, as the component holds them. */
  datatype ImageSettings = ImageSettings(
    effectOverlay: real, backgroundMode: BackgroundMode,
    cageDownsample: int, cageAntiAliasing: Msaa, cageUpdateEveryFrame: bool,
    cageFogDensity: real, cageFogPower: real, cageFogBlend: real,
    maskMode: MaskMode, blurDownsample: int, blurDistance: real, blurPasses: int, blurSamples: BlurKernel,
    counterVelocityMode: CounterVelocityMode, counterVelocityResetDistance: real, counterVelocityResetTime: real,
    counterVelocityStrength: real, counterVelocityPerAxis: Vec3, irisZRejection: bool)

  /** The preset's own image values, whatever its override flags say. */
  function PresetImageSettings(p: ImagePreset): ImageSettings {
    ImageSettings(
      p.effectOverlay, p.backgroundMode,
      p.cageDownsample, p.cageAntiAliasing, p.cageUpdateEveryFrame,
      p.cageFogDensity, p.cageFogPower, p.cageFogBlend,
      p.maskMode, p.blurDownsample, p.blurDistance, p.blurPasses, p.blurSamples,
      p.counterVelocityMode, p.counterVelocityResetDistance, p.counterVelocityResetTime,
      p.counterVelocityStrength, p.counterVelocityPerAxis, p.irisZRejection)
  }

  /** The image part of `ApplyPreset`: each setting becomes the preset's when its override getter is true. */
  function ApplyImagePreset(p: ImagePreset, s: ImageSettings): ImageSettings {
    ImageSettings(
      if p.OverrideEffectOverlay() then p.effectOverlay else s.effectOverlay,
      if p.OverrideBackgroundMode() then p.backgroundMode else s.backgroundMode,
      if p.OverrideCageDownsample() then p.cageDownsample else s.cageDownsample,
      if p.OverrideCageAntiAliasing() then p.cageAntiAliasing else s.cageAntiAliasing,
      if p.OverrideCageUpdateEveryFrame() then p.cageUpdateEveryFrame else s.cageUpdateEveryFrame,
      if p.OverrideCageFogDensity() then p.cageFogDensity else s.cageFogDensity,
      if p.OverrideCageFogPower() then p.cageFogPower else s.cageFogPower,
      if p.OverrideCageFogBlend() then p.cageFogBlend else s.cageFogBlend,
      if p.OverrideMaskMode() then p.maskMode else s.maskMode,
      if p.OverrideBlurDownsample() then p.blurDownsample else s.blurDownsample,
      if p.OverrideBlurDistance() then p.blurDistance else s.blurDistance,
      if p.OverrideBlurPasses() then p.blurPasses else s.blurPasses,
      if p.OverrideBlurSamples() then p.blurSamples else s.blurSamples,
      if p.OverrideCounterVelocityMode() then p.counterVelocityMode else s.counterVelocityMode,
      if p.OverrideCounterVelocityResetDistance() then p.counterVelocityResetDistance else s.counterVelocityResetDistance,
      if p.OverrideCounterVelocityResetTime() then p.counterVelocityResetTime else s.counterVelocityResetTime,
      if p.OverrideCounterVelocityStrength() then p.counterVelocityStrength else s.counterVelocityStrength,
      if p.OverrideCounterVelocityPerAxis() then p.counterVelocityPerAxis else s.counterVelocityPerAxis,
      if p.OverrideIrisZRejection() then p.irisZRejection else s.irisZRejection)
  }

  /** Applying the same preset twice leaves the settings as applying it once. */
  lemma ApplyImagePresetIdempotent(p: ImagePreset, s: ImageSettings)
    ensures ApplyImagePreset(p, ApplyImagePreset(p, s)) == ApplyImagePreset(p, s)
  {
  }

  /**
   * With `overrideAll` on, applying a preset takes every one of its image values except
   * the overlay, which is taken only when its own flag is set.
   */
  lemma OverrideAllTakesEveryImageSetting(p: ImagePreset, s: ImageSettings)
    requires p.base.overrideAll
    ensures ApplyImagePreset(p, s)
      == PresetImageSettings(p).(effectOverlay := if p.effectOverlayFlag then p.effectOverlay else s.effectOverlay)
  {
  }
}
