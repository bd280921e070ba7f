/**
 * Base effect preset: a sparse record of settings, each paired with an override flag.
 * A setting is copied onto the effect only when its override getter is true; every
 * base getter also answers true when the preset's `overrideAll` switch is on.
 */
module Presets {
  import opened UnityMath

  /** One motion channel's settings (angular velocity, acceleration or velocity). */
  datatype MotionSettings = MotionSettings(use: bool, strength: real, min: real, max: real, smoothing: real)

  /** A freshly created channel record: off, strength 1, everything else zero. */
  const DefaultMotionSettings := MotionSettings(false, 1.0, 0.0, 0.0, 0.0)

  /**
   * The counter-motion, tilt and framerate-division values that the effect's preset
   * overlay reads from a base preset. Each pair is a value getter and its override getter.
   */
  datatype MotionEffectsPreset = MotionEffectsPreset(
    useCounterMotion: bool, overrideUseCounterMotion: bool,
    counterRotationPerAxis: Vec3, overrideCounterRotationPerAxis: bool,
    useArtificialTilt: bool, overrideUseArtificialTilt: bool,
    framerateDivision: int, overrideFramerateDivision: bool,
    divideTranslation: bool, overrideDivideTranslation: bool,
    divideRotation: bool, overrideDivideRotation: bool)

  /**
   * The stored fields of a base preset. Fields ending in `Flag` are the raw per-setting
   * override flags; the `Override...` members are the getters the effect consults.
   */
  datatype PresetBase = PresetBase(
    overrideAll: bool,
    effectCoverage: real, effectCoverageFlag: bool,
    effectColor: Color, effectColorFlag: bool,
    effectFeather: real, effectFeatherFlag: bool,
    applyColorToBackground: bool, applyColorToBackgroundFlag: bool,
    skybox: Option<ObjectId>, skyboxFlag: bool,
    angularVelocity: MotionSettings, angularVelocityFlag: bool,
    acceleration: MotionSettings, accelerationFlag: bool,
    velocity: MotionSettings, velocityFlag: bool,
    motionEffects: MotionEffectsPreset)
  {
    predicate OverrideEffectCoverage() { effectCoverageFlag || overrideAll }
    predicate OverrideEffectColor() { effectColorFlag || overrideAll }
    predicate OverrideEffectFeather() { effectFeatherFlag || overrideAll }
    predicate OverrideApplyColorToBackground() { applyColorToBackgroundFlag || overrideAll }
    predicate OverrideSkybox() { skyboxFlag || overrideAll }
    predicate OverrideAngularVelocity() { angularVelocityFlag || overrideAll }
    predicate OverrideAcceleration() { accelerationFlag || overrideAll }
    predicate OverrideVelocity() { velocityFlag || overrideAll }

    /** Every base override getter is on. */
    predicate OverridesEverything() {
      OverrideEffectCoverage() && OverrideEffectColor() && OverrideEffectFeather()
      && OverrideApplyColorToBackground() && OverrideSkybox()
      && OverrideAngularVelocity() && OverrideAcceleration() && OverrideVelocity()
    }
  }

  /** `overrideAll` switches every base override getter on, whatever its own flag says. */
  lemma OverrideAllForcesBaseOverrides(p: PresetBase)
    ensures p.overrideAll ==> p.OverridesEverything()
    ensures !p.overrideAll ==>
      p.OverrideEffectCoverage() == p.effectCoverageFlag && p.OverrideEffectColor() == p.effectColorFlag
      && p.OverrideEffectFeather() == p.effectFeatherFlag
      && p.OverrideApplyColorToBackground() == p.applyColorToBackgroundFlag
      && p.OverrideSkybox() == p.skyboxFlag && p.OverrideAngularVelocity() == p.angularVelocityFlag
      && p.OverrideAcceleration() == p.accelerationFlag && p.OverrideVelocity() == p.velocityFlag
  {
  }

  /** The base part of a freshly created preset asset. */
  function DefaultPresetBase(motionEffects: MotionEffectsPreset): (p: PresetBase)
    ensures !p.overrideAll && p.OverridesEverything()
    ensures p.effectCoverage == 0.75 && p.effectFeather == 0.1 && p.effectColor == Black
    ensures p.angularVelocity.strength == 1.0 && p.acceleration.strength == 1.0 && p.velocity.strength == 1.0
  {
    PresetBase(false,
      0.75, true, Black, true, 0.1, true, false, true, None, true,
      DefaultMotionSettings, true, DefaultMotionSettings, true, DefaultMotionSettings, true,
      motionEffects)
  }
}
