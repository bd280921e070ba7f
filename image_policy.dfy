/**
 * The decisions of the image-effect backend that depend only on its settings: which
 * shader keywords are on, when the depth-reject iris may be drawn, how the mask and
 * iris command buffers follow the settings from one tick to the next, when the
 * counter-velocity offset is reset, how render textures are sized and what the blur
 * kernel's sample offsets are.
 */
module ImagePolicy {
  import opened UnityMath
  import opened Modes

  /** `usingMask`. */
  predicate UsingMask(maskMode: MaskMode) { maskMode != MaskMode.OFF }

  /** `usingCage`: the cage is rendered in the cage background modes. */
  predicate UsingCage(bg: BackgroundMode) {
    bg == BackgroundMode.CAGE_COLOR || bg == BackgroundMode.CAGE_SKYBOX || bg == BackgroundMode.CAGE_ONLY
  }

  /** `_usingCageRt`: the background render texture is needed for the cage and for the blur. */
  predicate UsingCageRt(bg: BackgroundMode) { UsingCage(bg) || bg == BackgroundMode.BLUR }

  /** `_canDrawIris`: no mask, no blur, no cage-only overlay and an opaque effect colour. */
  predicate CanDrawIris(maskMode: MaskMode, bg: BackgroundMode, alpha: real) {
    !UsingMask(maskMode) && bg != BackgroundMode.BLUR && bg != BackgroundMode.CAGE_ONLY && alpha == 1.0
  }

  /** `_drawIris`: depth rejection is asked for and possible. */
  predicate DrawsIris(irisZRejection: bool, maskMode: MaskMode, bg: BackgroundMode, alpha: real) {
    irisZRejection && CanDrawIris(maskMode, bg, alpha)
  }

  /** The tunnel material's keywords. */
  datatype Keywords = Keywords(mask: bool, constant: bool, invert: bool, skybox: bool, overlay: bool, bkg: bool)

  /** `UpdateKeywords`: one switch on the mask mode, one on the background mode. */
  function KeywordsFor(maskMode: MaskMode, bg: BackgroundMode): (k: Keywords)
    ensures k.mask <==> maskMode != MaskMode.OFF
    ensures k.constant <==> maskMode == MaskMode.WINDOW || maskMode == MaskMode.PORTAL
    ensures k.invert <==> maskMode == MaskMode.PORTAL
    ensures k.skybox <==> bg == BackgroundMode.SKYBOX
    ensures k.overlay <==> bg == BackgroundMode.CAGE_ONLY
    ensures k.bkg <==> bg in {BackgroundMode.CAGE_COLOR, BackgroundMode.CAGE_SKYBOX, BackgroundMode.CAGE_ONLY, BackgroundMode.BLUR}
  {
    var (constant, mask, invert) := match maskMode
      case OFF => (false, false, false)
      case MASK => (false, true, false)
      case WINDOW => (true, true, false)
      case PORTAL => (true, true, true);
    var (bkg, skybox, overlay) := match bg
      case COLOR => (false, false, false)
      case SKYBOX => (false, true, false)
      case CAGE_COLOR => (true, false, false)
      case CAGE_SKYBOX => (true, false, false)
      case BLUR => (true, false, false)
      case CAGE_ONLY => (true, false, true);
    Keywords(mask, constant, invert, skybox, overlay, bkg)
  }

  /**
   * The keywords agree with the mode predicates: the mask keyword is on exactly when a
   * mask is used, the background keyword exactly when the background render texture is,
   * constant and invert only with a mask, and the iris only when neither the mask nor
   * the overlay keyword is on.
   */
  lemma KeywordsAgreeWithPredicates(maskMode: MaskMode, bg: BackgroundMode, irisZRejection: bool, alpha: real)
    ensures var k := KeywordsFor(maskMode, bg);
      (k.mask <==> UsingMask(maskMode))
      && (k.bkg <==> UsingCageRt(bg))
      && (k.overlay ==> UsingCage(bg))
      && (k.constant || k.invert ==> k.mask)
      && (k.skybox ==> !k.bkg)
      && (DrawsIris(irisZRejection, maskMode, bg, alpha) ==> !k.mask && !k.overlay && (k.bkg ==> UsingCage(bg)))
  {
  }

  /** `GetMsaa`: the source's sample count for AUTO, the named count otherwise. */
  function GetMsaa(m: Msaa, srcMsaa: int): (r: int)
    ensures m == Msaa.AUTO ==> r == srcMsaa
    ensures m != Msaa.AUTO ==> r in {1, 2, 4, 8}
  {
    match m
    case AUTO => srcMsaa
    case OFF => 1
    case X2 => 2
    case X4 => 4
    case X8 => 8
  }

  /** C#'s `/` on `int`: the quotient of the magnitudes, negated when the signs differ. */
  function TruncDiv(a: int, b: int): int
    requires b != 0
  {
    var n, d := if a < 0 then -a else a, if b < 0 then -b else b;
    if (a < 0) == (b < 0) then n / d else -(n / d)
  }

  /**
   * The quotient truncates toward zero: it agrees with Euclidean division on
   * non-negative operands and changes sign with either operand (Euclidean division
   * rounds `-7 / 2` to `-4`, this one to `-3`).
   */
  lemma TruncDivTruncates(a: int, b: int)
    requires b != 0
    ensures 0 <= a && 0 < b ==> TruncDiv(a, b) == a / b
    ensures TruncDiv(-a, b) == -TruncDiv(a, b)
    ensures TruncDiv(a, -b) == -TruncDiv(a, b)
    ensures TruncDiv(-7, 2) == -3 && -7 / 2 == -4
  {
    if a == 0 {
      var d := if b < 0 then -b else b;
      assert 0 / d == 0;
    }
  }

  /** A render texture's size along one axis: the source size over `downsample + 1`, truncated. */
  function DownsampledSize(src: int, downsample: int): int
    requires downsample + 1 != 0
  {
    TruncDiv(src, downsample + 1)
  }

  /** With a non-negative size and downsample the texture is the largest size that fits `downsample + 1` times. */
  lemma DownsampledSizeFits(src: int, downsample: int)
    requires 0 <= src && 0 <= downsample
    ensures var s := DownsampledSize(src, downsample);
      0 <= s <= src && s * (downsample + 1) <= src < (s + 1) * (downsample + 1)
      && (downsample == 0 ==> s == src)
  {
    DivBounds(src, downsample + 1);
  }

  /** Euclidean division of a non-negative number by a positive one, in the terms the sizing needs. */
  lemma DivBounds(n: int, d: int)
    requires 0 <= n && 0 < d
    ensures 0 <= n / d <= n
    ensures (n / d) * d <= n < (n / d + 1) * d
    ensures d == 1 ==> n / d == n
  {
    var q, r := n / d, n % d;
    assert n == q * d + r && 0 <= r < d;
    assert 0 <= q by {
      if q < 0 { MulNegPos(q, d); }
    }
    MulGrows(q, d);
    Distrib(q, d);
  }

  lemma MulNegPos(x: int, y: int) requires x < 0 && 0 < y ensures x * y <= -y {}
  lemma MulGrows(x: int, y: int) requires 0 <= x && 0 < y ensures x <= x * y {}
  lemma Distrib(x: int, y: int) ensures (x + 1) * y == x * y + y {}

  /** How many registrations of a buffer the camera holds when the component's flag for it says `registered`. */
  function Registrations(registered: bool): nat {
    if registered then 1 else 0
  }

  /** The mask buffer's registration and the mask mode last acted upon. */
  datatype MaskState = MaskState(hasBuffer: bool, lastMode: MaskMode)

  /**
   * The registration part of `ResetMaskCommandBuffer`. An enabled component adds the
   * buffer when masking was off and is now on, removes it when masking was on and is
   * now off, and records the mode; a disabled one only removes it.
   */
  function MaskTransition(enabled: bool, s: MaskState, maskMode: MaskMode): MaskState {
    if enabled then
      var has :=
        if !UsingMask(s.lastMode) && UsingMask(maskMode) && !s.hasBuffer then true
        else if UsingMask(s.lastMode) && !UsingMask(maskMode) && s.hasBuffer then false
        else s.hasBuffer;
      MaskState(has, maskMode)
    else if s.hasBuffer then MaskState(false, s.lastMode)
    else s
  }

  /**
   * When the registration matched the mode last acted upon, an enabled transition leaves
   * it matching the current mode; a disabled one leaves nothing registered; and the
   * buffer is only ever added when it was absent.
   */
  lemma MaskTransitionTracksMode(enabled: bool, s: MaskState, maskMode: MaskMode)
    ensures var r := MaskTransition(enabled, s, maskMode);
      (enabled && s.hasBuffer == UsingMask(s.lastMode) ==> r.hasBuffer == UsingMask(maskMode) && r.lastMode == maskMode)
      && (!enabled ==> !r.hasBuffer && r.lastMode == s.lastMode)
      && (r.hasBuffer && !s.hasBuffer ==> enabled && UsingMask(maskMode))
  {
  }

  /** The iris buffer's registration and whether the iris was drawn at the last check. */
  datatype IrisState = IrisState(hasBuffer: bool, wasDrawing: bool)

  /**
   * The iris toggle of `LateUpdate`: when `drawIris` differs from the last check, the
   * buffer is removed if present and no longer wanted, or added if absent and wanted,
   * and the new value is recorded.
   */
  function IrisTransition(s: IrisState, drawIris: bool): IrisState {
    if s.wasDrawing != drawIris then
      var has :=
        if s.hasBuffer && !drawIris then false
        else if !s.hasBuffer && drawIris then true
        else s.hasBuffer;
      IrisState(has, drawIris)
    else s
  }

  /**
   * When the registration matched the last check, it matches `drawIris` afterwards; the
   * buffer is never added while present nor removed while absent.
   */
  lemma IrisTransitionTracksDrawIris(s: IrisState, drawIris: bool)
    ensures var r := IrisTransition(s, drawIris);
      (s.hasBuffer == s.wasDrawing ==> r.hasBuffer == drawIris && r.wasDrawing == drawIris)
      && (r.hasBuffer != s.hasBuffer ==> r.hasBuffer == drawIris)
      && r.wasDrawing == drawIris
  {
  }

  /**
   * The counter-velocity settings: the mode, the distance and time after which REAL mode
   * resets the offset, the strength and the per-axis scale of the motion counteracted.
   */
  datatype CounterVelocitySettings = CounterVelocitySettings(
    mode: CounterVelocityMode, resetDistance: real, resetTime: real, strength: real, perAxis: Vec3)

  /** The counter-velocity offset has reached a positive reset distance. */
  predicate BeyondResetDistance(cmPos: Vec3, resetDistance: real) {
    resetDistance > 0.0 && cmPos.SqrMagnitude() >= resetDistance * resetDistance
  }

  /** A counter-velocity reset is due: the mode changed, or in REAL mode the timer ran out or the cage went too far. */
  predicate CounterVelocityResetDue(lastMode: CounterVelocityMode, cv: CounterVelocitySettings, time: real, deadline: real, cmPos: Vec3) {
    lastMode != cv.mode
    || (cv.mode == CounterVelocityMode.REAL
        && ((cv.resetTime > 0.0 && time >= deadline) || BeyondResetDistance(cmPos, cv.resetDistance)))
  }

  /** The blur kernel's sample offsets in texels, one per pair of samples either side of the centre. */
  function BlurFactors(k: BlurKernel): (fs: seq<real>)
    ensures |fs| == match k case FIVE => 1 case NINE => 2 case THIRTEEN => 3
    ensures forall i, j :: 0 <= i < j < |fs| ==> 0.0 < fs[i] < fs[j]
    ensures 0 < |fs| && 0.0 < fs[0]
  {
    match k
    case FIVE => [1.33333333]
    case NINE => [1.38461538, 3.23076923]
    case THIRTEEN => [1.41176470, 3.29411764, 5.17647058]
  }

  /** Sample offset `i` for a texel size and blur distance: horizontal in `x`, vertical in `w`. */
  function BlurOffset(old_: Vec4, texel: Vec2, distance: real, factor: real): Vec4 {
    old_.(x := texel.x * distance * factor, w := texel.y * distance * factor)
  }

  /** The colour the tunnel material gets for a background mode; CAGE_ONLY leaves it as it was. */
  function TunnelColor(bg: BackgroundMode, applyColorToBackground: bool, effectColor: Color, current: Color): (c: Color)
    ensures bg == BackgroundMode.COLOR ==> c == effectColor
    ensures bg == BackgroundMode.CAGE_ONLY ==> c == current
    ensures bg != BackgroundMode.CAGE_ONLY ==> c.a == effectColor.a
    ensures bg != BackgroundMode.COLOR && bg != BackgroundMode.CAGE_ONLY ==>
      (applyColorToBackground ==> c == effectColor)
      && (!applyColorToBackground ==> c == Color(1.0, 1.0, 1.0, effectColor.a))
  {
    match bg
    case COLOR => effectColor
    case CAGE_ONLY => current
    case _ =>
      var bkg := if applyColorToBackground then effectColor else White;
      bkg.(a := effectColor.a)
  }

  /** The inner and outer edge of the iris material's aperture. */
  datatype Aperture = Aperture(inner: real, outer: real)

  /** The tunnel material's properties that `LateUpdate` sets: the aperture, the overlay, the colour and the two skybox slots. */
  datatype TunnelMaterial = TunnelMaterial(
    inner: real, outer: real, overlay: real, color: Color, skybox: Option<ObjectId>, skysphereSkybox: Option<ObjectId>)

  /**
   * The tunnel material after a tick of strength `motion`: the aperture opens to the
   * strength with the feather inside it, the overlay is the component's, the colour is
   * `TunnelColor`'s, and the effect skybox goes into the slot of the background mode
   * that shows one (SKYBOX or CAGE_SKYBOX) while the other slot keeps its texture.
   */
  function TunnelMaterialFor(m: TunnelMaterial, motion: real, feather: real, overlay: real, bg: BackgroundMode,
                             applyColorToBackground: bool, effectColor: Color, effectSkybox: Option<ObjectId>): (r: TunnelMaterial)
    ensures r.inner == motion && r.inner - r.outer == feather && r.overlay == overlay
    ensures r.color == TunnelColor(bg, applyColorToBackground, effectColor, m.color)
    ensures r.skybox == (if bg == BackgroundMode.SKYBOX then effectSkybox else m.skybox)
    ensures r.skysphereSkybox == (if bg == BackgroundMode.CAGE_SKYBOX then effectSkybox else m.skysphereSkybox)
  {
    var skybox := if bg == BackgroundMode.SKYBOX then effectSkybox else m.skybox;
    var skysphere := if bg == BackgroundMode.CAGE_SKYBOX then effectSkybox else m.skysphereSkybox;
    TunnelMaterial(motion, motion - feather, overlay, TunnelColor(bg, applyColorToBackground, effectColor, m.color), skybox, skysphere)
  }

  /**
   * The mask part of `LateUpdate` on an enabled component: `MaskTransition` when the
   * mode changed since it was last acted upon, nothing otherwise. Afterwards the mode has
   * been acted upon, and a registration that matched the old mode matches the new one.
   */
  function MaskUpdate(s: MaskState, maskMode: MaskMode): (r: MaskState)
    ensures r.lastMode == maskMode
    ensures s.hasBuffer == UsingMask(s.lastMode) ==> r.hasBuffer == UsingMask(maskMode)
    ensures r.hasBuffer != s.hasBuffer ==> r.hasBuffer == UsingMask(maskMode)
  {
    if s.lastMode != maskMode then MaskTransition(true, s, maskMode) else s
  }

  /** The translation one tick counters: the motion scaled per axis, then by the strength. */
  function CounterVelocityStep(deltaPos: Vec3, perAxis: Vec3, strength: real): (d: Vec3)
    ensures perAxis.x == 0.0 || strength == 0.0 ==> d.x == 0.0
    ensures perAxis.y == 0.0 || strength == 0.0 ==> d.y == 0.0
    ensures perAxis.z == 0.0 || strength == 0.0 ==> d.z == 0.0
    ensures perAxis == One3 ==> d == deltaPos.Times(strength)
  {
    deltaPos.Scaled(perAxis).Times(strength)
  }

  /** The blur kernel's offsets are stale: another kernel, or a radius not approximately the one they were computed for. */
  predicate BlurKernelStale(lastKernel: BlurKernel, kernel: BlurKernel, lastRadius: real, radius: real, e: Engine) {
    lastKernel != kernel || !Approximately(e, lastRadius, radius)
  }
}
