/**
 * Preset for the mobile backend. Of its six override getters only the skybox one
 * honours `overrideAll`; the others return their raw flag. Stencil settings are
 * integers here.
 */
module MobilePresets {
  import opened Presets

  datatype MobilePreset = MobilePreset(
    base: PresetBase,
    drawSkybox: bool, drawSkyboxFlag: bool,
    drawBeforeTransparent: bool, drawBeforeTransparentFlag: bool,
    useMask: bool, useMaskFlag: bool,
    stencilReference: int, stencilReferenceFlag: bool,
    stencilMask: int, stencilMaskFlag: bool,
    stencilBias: int, stencilBiasFlag: bool)
  {
    predicate OverrideDrawSkybox() { drawSkyboxFlag || base.overrideAll }
    predicate OverrideDrawBeforeTransparent() { drawBeforeTransparentFlag }
    predicate OverrideUseMask() { useMaskFlag }
    predicate OverrideStencilReference() { stencilReferenceFlag }
    predicate OverrideStencilMask() { stencilMaskFlag }
    predicate OverrideStencilBias() { stencilBiasFlag }
  }

  /** `overrideAll` reaches the skybox override only; the other mobile overrides follow their own flags. */
  lemma OverrideAllReachesOnlySkybox(p: MobilePreset)
    ensures p.base.overrideAll ==> p.base.OverridesEverything() && p.OverrideDrawSkybox()
    ensures p.OverrideDrawBeforeTransparent() == p.drawBeforeTransparentFlag
    ensures p.OverrideUseMask() == p.useMaskFlag
    ensures p.OverrideStencilReference() == p.stencilReferenceFlag
    ensures p.OverrideStencilMask() == p.stencilMaskFlag
    ensures p.OverrideStencilBias() == p.stencilBiasFlag
  {
    OverrideAllForcesBaseOverrides(p.base);
  }

  /** A freshly created mobile preset. */
  function DefaultMobilePreset(motionEffects: MotionEffectsPreset): (p: MobilePreset)
    ensures p.base == DefaultPresetBase(motionEffects)
    ensures !p.drawSkybox && !p.drawBeforeTransparent && !p.useMask
    ensures p.stencilReference == 1 && p.stencilMask == 255 && p.stencilBias == 1
    ensures p.OverrideDrawSkybox() && p.OverrideDrawBeforeTransparent() && p.OverrideUseMask()
    ensures p.OverrideStencilReference() && p.OverrideStencilMask() && p.OverrideStencilBias()
  {
    MobilePreset(DefaultPresetBase(motionEffects), false, true, false, true, false, true, 1, true, 255, true, 1, true)
  }
}
