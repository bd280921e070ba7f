/**
 * The render textures of the image-effect backend: the background ("cage") texture,
 * the mask texture and the two blur textures, with the source size and settings they
 * were last made for. Before the first draw of a frame each texture in use is
 * re-created when it is due. As written a texture is due when the source differs from
 * the one size recorded for all of them, when it is missing or when its own settings
 * changed; as intended it is due when it is not what the source calls for.
 */
module RenderTextures {
  import opened UnityMath
  import opened Modes
  import opened ImagePolicy

  /** A render texture as far as the sizing logic sees it. */
  datatype RenderTex = RenderTex(width: int, height: int, antiAliasing: int)

  /** The source the textures are made for: its width, height and sample count. */
  datatype Source = Source(x: int, y: int, msaa: int)

  /**
   * The textures and what they were last made for: the source size recorded after an
   * update (`_rtX`, `_rtY`, `_rtA`), the cage's downsampling and anti-aliasing, and
   * the blur's downsampling.
   */
  datatype Textures = Textures(
    cage: Option<RenderTex>, mask: Option<RenderTex>, blur0: Option<RenderTex>, blur1: Option<RenderTex>,
    size: Source, cageDownsample: int, cageAntiAliasing: Msaa, blurDownsample: int)

  /** The component's settings the textures depend on. */
  datatype TextureSettings = TextureSettings(
    backgroundMode: BackgroundMode, maskMode: MaskMode,
    cageDownsample: int, cageAntiAliasing: Msaa, blurDownsample: int)

  /**
   * The outcome of an update: the new textures, whether it completed (a downsampling
   * of -1 divides by zero and stops it), and whether the mask texture and the blur
   * textures were re-created, which resets the mask buffer and recomputes the blur kernel.
   */
  datatype TextureUpdate = TextureUpdate(textures: Textures, ok: bool, maskRecreated: bool, blurRecreated: bool)

  /** No textures yet, made for a zero-sized source. */
  const NoTextures := Textures(None, None, None, None, Source(0, 0, 0), 0, Msaa.AUTO, 0)

  /** The background texture a source calls for: downsampled on both axes, with the cage's anti-aliasing. */
  function CageRtFor(src: Source, downsample: int, aa: Msaa): RenderTex
    requires downsample + 1 != 0
  {
    RenderTex(DownsampledSize(src.x, downsample), DownsampledSize(src.y, downsample), GetMsaa(aa, src.msaa))
  }

  /** A blur texture a source calls for: downsampled on both axes, without anti-aliasing. */
  function BlurRtFor(src: Source, downsample: int): RenderTex
    requires downsample + 1 != 0
  {
    RenderTex(DownsampledSize(src.x, downsample), DownsampledSize(src.y, downsample), 1)
  }

  /** The mask texture a source calls for: the source's own size and sample count. */
  function MaskRtFor(src: Source): RenderTex {
    RenderTex(src.x, src.y, src.msaa)
  }

  /**
   * The background and blur textures are never larger than the source, are the
   * source's size without downsampling, and the background follows the source's
   * anti-aliasing on AUTO.
   */
  lemma TexturesFitSource(src: Source, downsample: int, aa: Msaa)
    requires 0 <= src.x && 0 <= src.y && 0 <= downsample
    ensures var c, b := CageRtFor(src, downsample, aa), BlurRtFor(src, downsample);
      0 <= c.width <= src.x && 0 <= c.height <= src.y && c.width == b.width && c.height == b.height
      && (downsample == 0 ==> c.width == src.x && c.height == src.y)
      && (aa == Msaa.AUTO ==> c.antiAliasing == src.msaa) && b.antiAliasing == 1
  {
    DownsampledSizeFits(src.x, downsample);
    DownsampledSizeFits(src.y, downsample);
  }

  /**
   * The textures that are due are re-created in order (background, mask, blur); a
   * division by zero stops the sequence where it happens, and the source size is
   * recorded when all went through and anything was re-created, and only then.
   */
  function Recreate(t: Textures, s: TextureSettings, src: Source, cageDue: bool, maskDue: bool, blurDue: bool): (u: TextureUpdate)
    ensures u.ok <==> !(cageDue && s.cageDownsample + 1 == 0) && !(blurDue && s.blurDownsample + 1 == 0)
    ensures u.maskRecreated <==> maskDue && !(cageDue && s.cageDownsample + 1 == 0)
    ensures u.blurRecreated <==> blurDue && u.ok
    ensures u.ok && (cageDue || maskDue || blurDue) ==> u.textures.size == src
    ensures !u.ok ==> u.textures.size == t.size
    ensures !cageDue && !maskDue && !blurDue ==> u == TextureUpdate(t, true, false, false)
  {
    if cageDue && s.cageDownsample + 1 == 0 then
      TextureUpdate(t, false, false, false)
    else
      var t1 := if cageDue
        then t.(cage := Some(CageRtFor(src, s.cageDownsample, s.cageAntiAliasing)),
                cageDownsample := s.cageDownsample, cageAntiAliasing := s.cageAntiAliasing)
        else t;
      var t2 := if maskDue then t1.(mask := Some(MaskRtFor(src))) else t1;
      if blurDue && s.blurDownsample + 1 == 0 then
        TextureUpdate(t2, false, maskDue, false)
      else
        var t3 := if blurDue
          then t2.(blur0 := Some(BlurRtFor(src, s.blurDownsample)), blur1 := Some(BlurRtFor(src, s.blurDownsample)),
                   blurDownsample := s.blurDownsample)
          else t2;
        TextureUpdate(if cageDue || maskDue || blurDue then t3.(size := src) else t3, true, maskDue, blurDue)
  }

  /** As written, the background texture is due when it is in use and the recorded size, the texture or its settings changed. */
  predicate CageDueAsWritten(t: Textures, s: TextureSettings, src: Source) {
    UsingCageRt(s.backgroundMode)
    && (src != t.size || t.cage.None? || t.cageDownsample != s.cageDownsample || t.cageAntiAliasing != s.cageAntiAliasing)
  }

  /** As written, the mask texture is due when a mask is in use and the recorded size changed or the texture is missing. */
  predicate MaskDueAsWritten(t: Textures, s: TextureSettings, src: Source) {
    UsingMask(s.maskMode) && (src != t.size || t.mask.None?)
  }

  /** As written, the blur textures are due in BLUR mode when the recorded size, a texture or the downsampling changed. */
  predicate BlurDueAsWritten(t: Textures, s: TextureSettings, src: Source) {
    s.backgroundMode == BackgroundMode.BLUR
    && (src != t.size || t.blur0.None? || t.blur1.None? || t.blurDownsample != s.blurDownsample)
  }

  /** Some texture is due, as written. */
  predicate AnyDueAsWritten(t: Textures, s: TextureSettings, src: Source) {
    CageDueAsWritten(t, s, src) || MaskDueAsWritten(t, s, src) || BlurDueAsWritten(t, s, src)
  }

  /** `UpdateRenderTextures` as written. */
  function UpdateAsWritten(t: Textures, s: TextureSettings, src: Source): TextureUpdate {
    Recreate(t, s, src, CageDueAsWritten(t, s, src), MaskDueAsWritten(t, s, src), BlurDueAsWritten(t, s, src))
  }

  /**
   * As written, a completed update leaves nothing due, so a second update for the same
   * source and settings changes nothing; with nothing due an update changes nothing;
   * and it fails exactly when a due texture's downsampling is -1.
   */
  lemma {:induction false} UpdateAsWrittenSettles(t: Textures, s: TextureSettings, src: Source)
    ensures var u := UpdateAsWritten(t, s, src);
      (u.ok <==> !(CageDueAsWritten(t, s, src) && s.cageDownsample + 1 == 0)
                 && !(BlurDueAsWritten(t, s, src) && s.blurDownsample + 1 == 0))
      && (u.ok ==> !AnyDueAsWritten(u.textures, s, src))
      && (u.ok ==> UpdateAsWritten(u.textures, s, src) == TextureUpdate(u.textures, true, false, false))
      && (!AnyDueAsWritten(t, s, src) ==> u == TextureUpdate(t, true, false, false))
  {
    var u := UpdateAsWritten(t, s, src);
    if u.ok && AnyDueAsWritten(t, s, src) {
      assert u.textures.size == src;
    }
  }

  /**
   * Every texture in use is what the source calls for: the background and blur
   * textures at their downsampling, the mask texture at the source's size.
   */
  predicate TexturesMatch(t: Textures, s: TextureSettings, src: Source) {
    (UsingCageRt(s.backgroundMode) ==>
       s.cageDownsample + 1 != 0 && t.cage == Some(CageRtFor(src, s.cageDownsample, s.cageAntiAliasing)))
    && (UsingMask(s.maskMode) ==> t.mask == Some(MaskRtFor(src)))
    && (s.backgroundMode == BackgroundMode.BLUR ==>
          s.blurDownsample + 1 != 0 && t.blur0 == Some(BlurRtFor(src, s.blurDownsample)) && t.blur1 == t.blur0)
  }

  /** As intended, the background texture is due when it is in use and is not what the source calls for. */
  predicate CageMismatch(t: Textures, s: TextureSettings, src: Source) {
    UsingCageRt(s.backgroundMode)
    && (s.cageDownsample + 1 == 0 || t.cage != Some(CageRtFor(src, s.cageDownsample, s.cageAntiAliasing)))
  }

  /** As intended, the mask texture is due when a mask is in use and it is not the source's size. */
  predicate MaskMismatch(t: Textures, s: TextureSettings, src: Source) {
    UsingMask(s.maskMode) && t.mask != Some(MaskRtFor(src))
  }

  /** As intended, the blur textures are due in BLUR mode when they are not what the source calls for. */
  predicate BlurMismatch(t: Textures, s: TextureSettings, src: Source) {
    s.backgroundMode == BackgroundMode.BLUR
    && (s.blurDownsample + 1 == 0 || t.blur0 != Some(BlurRtFor(src, s.blurDownsample)) || t.blur1 != t.blur0)
  }

  /** `UpdateRenderTextures` as intended: each texture is compared with what the source calls for. */
  function Update(t: Textures, s: TextureSettings, src: Source): TextureUpdate {
    Recreate(t, s, src, CageMismatch(t, s, src), MaskMismatch(t, s, src), BlurMismatch(t, s, src))
  }

  /**
   * As intended, a completed update leaves every texture in use matching the source;
   * textures that already match are left alone; and it fails exactly when a texture in
   * use has a downsampling of -1.
   */
  lemma {:induction false} UpdateMatchesSource(t: Textures, s: TextureSettings, src: Source)
    ensures var u := Update(t, s, src);
      (u.ok <==> !(UsingCageRt(s.backgroundMode) && s.cageDownsample + 1 == 0)
                 && !(s.backgroundMode == BackgroundMode.BLUR && s.blurDownsample + 1 == 0))
      && (u.ok ==> TexturesMatch(u.textures, s, src))
      && (TexturesMatch(t, s, src) ==> u == TextureUpdate(t, true, false, false))
  {
  }

  /**
   * As written the recorded source size is shared by all textures, so re-creating one
   * texture marks the others as made for the new size. With the background texture made
   * at width 100, a frame that only re-creates the mask for a width of 200 records 200,
   * and going back to the background then finds nothing due: the background texture
   * stays 100 wide while the source is 200.
   */
  lemma StaleBackgroundAsWritten()
    ensures var background, masked := TextureSettings(BackgroundMode.CAGE_COLOR, MaskMode.OFF, 0, Msaa.AUTO, 3),
                                      TextureSettings(BackgroundMode.COLOR, MaskMode.MASK, 0, Msaa.AUTO, 3);
      var small, large := Source(100, 100, 1), Source(200, 200, 1);
      var t1 := UpdateAsWritten(NoTextures, background, small).textures;
      var t2 := UpdateAsWritten(t1, masked, large).textures;
      var u := UpdateAsWritten(t2, background, large);
      t1.cage == Some(RenderTex(100, 100, 1)) && t2.size == large
      && u == TextureUpdate(t2, true, false, false) && u.textures.cage == Some(RenderTex(100, 100, 1))
      && !TexturesMatch(u.textures, background, large)
  {
    var background, masked := TextureSettings(BackgroundMode.CAGE_COLOR, MaskMode.OFF, 0, Msaa.AUTO, 3),
                              TextureSettings(BackgroundMode.COLOR, MaskMode.MASK, 0, Msaa.AUTO, 3);
    var small, large := Source(100, 100, 1), Source(200, 200, 1);
    assert CageRtFor(small, 0, Msaa.AUTO) == RenderTex(100, 100, 1);
    assert CageRtFor(large, 0, Msaa.AUTO) == RenderTex(200, 200, 1);
  }

  /** The same frames with the intended update: the background texture follows the source to a width of 200. */
  lemma BackgroundFollowsSource()
    ensures var background, masked := TextureSettings(BackgroundMode.CAGE_COLOR, MaskMode.OFF, 0, Msaa.AUTO, 3),
                                      TextureSettings(BackgroundMode.COLOR, MaskMode.MASK, 0, Msaa.AUTO, 3);
      var small, large := Source(100, 100, 1), Source(200, 200, 1);
      var t1 := Update(NoTextures, background, small).textures;
      var t2 := Update(t1, masked, large).textures;
      var u := Update(t2, background, large);
      t1.cage == Some(RenderTex(100, 100, 1)) && u.ok && u.textures.cage == Some(RenderTex(200, 200, 1))
  {
    var background, masked := TextureSettings(BackgroundMode.CAGE_COLOR, MaskMode.OFF, 0, Msaa.AUTO, 3),
                              TextureSettings(BackgroundMode.COLOR, MaskMode.MASK, 0, Msaa.AUTO, 3);
    var small, large := Source(100, 100, 1), Source(200, 200, 1);
    assert CageRtFor(small, 0, Msaa.AUTO) == RenderTex(100, 100, 1);
    assert CageRtFor(large, 0, Msaa.AUTO) == RenderTex(200, 200, 1);
    UpdateMatchesSource(Update(NoTextures, background, small).textures, masked, large);
  }
}
