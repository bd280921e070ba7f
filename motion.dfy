/**
 * The effect's shared core: per-frame motion analysis and effect strength, artificial
 * tilt, framerate division, counter-rotation, motion reset and the base preset overlay.
 *
 * Each frame the motion target's pose is compared with the pose cached on the previous
 * frame. Three channels (angular velocity, linear velocity, linear acceleration) each
 * contribute a smoothed, normalised amount; their sum is remapped into a vignette
 * radius and scaled by the coverage setting. The engine's transforms, clock and maths
 * primitives arrive as a `Frame`; the component's own Transform writes land in `poses`.
 */
module Motion {
  import opened UnityMath
  import opened Angles
  import opened Presets

  /** Smallest vignette radius the remapping produces. */
  const COVERAGE_MIN: real := 0.65
  /** Delta time is never taken below this. */
  const MIN_DELTA_TIME: real := 0.000001
  /** Speed limit passed to the tilt smoothing. */
  const TILT_MAX_SPEED: real := 1000.0

  /** `RemapRadius`: a motion amount (or coverage) turned into a radius in [COVERAGE_MIN, 1]. */
  function RemapRadius(radius: real): (r: real)
    ensures COVERAGE_MIN <= r <= 1.0
    ensures radius <= 0.0 ==> r == COVERAGE_MIN
    ensures radius >= 1.0 ==> r == 1.0
  {
    Lerp(COVERAGE_MIN, 1.0, radius)
  }

  lemma ScaleMonotone(d: real, u1: real, u2: real)
    requires 0.0 <= d && u1 <= u2
    ensures d * u1 <= d * u2
  {
    assert d * u2 - d * u1 == d * (u2 - u1);
  }

  lemma LerpMonotone(a: real, b: real, t1: real, t2: real)
    requires a <= b && t1 <= t2
    ensures Lerp(a, b, t1) <= Lerp(a, b, t2)
  {
    var d, u1, u2 := b - a, Clamp01(t1), Clamp01(t2);
    Clamp01Monotone(t1, t2);
    ScaleMonotone(d, u1, u2);
    var p1, p2 := d * u1, d * u2;
    assert p1 <= p2;
    assert Lerp(a, b, t1) == a + p1;
    assert Lerp(a, b, t2) == a + p2;
  }

  lemma Clamp01Monotone(t1: real, t2: real)
    requires t1 <= t2
    ensures Clamp01(t1) <= Clamp01(t2)
  {
  }

  lemma ProductOfRadii(x: real, y: real)
    requires COVERAGE_MIN <= x <= 1.0 && COVERAGE_MIN <= y <= 1.0
    ensures COVERAGE_MIN * COVERAGE_MIN <= x * y <= 1.0
  {
    assert COVERAGE_MIN * COVERAGE_MIN <= x * COVERAGE_MIN <= x * y;
    assert x * y <= 1.0 * y;
  }

  /**
   * The value a tick returns for a channel sum `fx`: both radii multiplied and clamped.
   * It never drops below COVERAGE_MIN squared, and at rest it is COVERAGE_MIN times the
   * remapped coverage.
   */
  function EffectStrength(fx: real, coverage: real): (r: real)
    ensures COVERAGE_MIN * COVERAGE_MIN <= r <= 1.0
    ensures fx <= 0.0 ==> r == COVERAGE_MIN * RemapRadius(coverage)
    ensures fx >= 1.0 ==> r == RemapRadius(coverage)
  {
    ProductOfRadii(RemapRadius(fx), RemapRadius(coverage));
    Clamp01(RemapRadius(fx) * RemapRadius(coverage))
  }

  /** More motion never yields a weaker effect. */
  lemma EffectStrengthMonotone(fx1: real, fx2: real, coverage: real)
    requires fx1 <= fx2
    ensures EffectStrength(fx1, coverage) <= EffectStrength(fx2, coverage)
  {
    LerpMonotone(COVERAGE_MIN, 1.0, fx1, fx2);
    var r1, r2, c := RemapRadius(fx1), RemapRadius(fx2), RemapRadius(coverage);
    ScaleMonotone(c, r1, r2);
    var p1, p2 := r1 * c, r2 * c;
    assert p1 <= p2;
    ProductOfRadii(r1, c);
    ProductOfRadii(r2, c);
    assert EffectStrength(fx1, coverage) == p1;
    assert EffectStrength(fx2, coverage) == p2;
  }

  /** Velocity channel: normalised level of the smoothed speed, 0 when the range is degenerate. */
  function VelocityLevel(smoothed: real, s: MotionSettings, e: Engine): (r: real)
    ensures 0.0 <= r <= 1.0
    ensures Approximately(e, s.max, s.min) ==> r == 0.0
    ensures !Approximately(e, s.max, s.min) && s.min < s.max && smoothed <= s.min ==> r == 0.0
    ensures !Approximately(e, s.max, s.min) && s.min < s.max && smoothed >= s.max ==> r == 1.0
  {
    if !Approximately(e, s.max, s.min) then
      var d := s.max - s.min;
      if s.min < s.max && smoothed >= s.max then QuotientAtLeastOne(smoothed - s.min, d); Clamp01((smoothed - s.min) / d)
      else if s.min < s.max && smoothed <= s.min then QuotientNotPositive(smoothed - s.min, d); Clamp01((smoothed - s.min) / d)
      else Clamp01((smoothed - s.min) / d)
    else 0.0
  }

  /**
   * Acceleration channel: the value handed to smoothing. It is normalised into [0, 1]
   * when the range is usable, and otherwise passed through raw rather than zeroed.
   */
  function AccelerationTarget(accel: real, s: MotionSettings, e: Engine): (r: real)
    ensures !Approximately(e, s.max, s.min) ==> 0.0 <= r <= 1.0
    ensures Approximately(e, s.max, s.min) ==> r == accel
  {
    if !Approximately(e, s.max, s.min) then Clamp01((accel - s.min) / (s.max - s.min)) else accel
  }

  /** With a degenerate range the three channels disagree: 0, 0 and the raw acceleration. */
  lemma DegenerateRangesDifferByChannel(s: MotionSettings, e: Engine, v: real)
    requires s.min == s.max
    ensures InverseLerp(s.min, s.max, v) == 0.0
    ensures VelocityLevel(v, s, e) == 0.0
    ensures AccelerationTarget(v, s, e) == v
  {
  }

  /** The delta time a tick divides by: the frame's, floored at MIN_DELTA_TIME. */
  function TickDeltaTime(f: Frame): (dT: real)
    ensures dT >= MIN_DELTA_TIME && dT >= f.deltaTime
  {
    Max(f.deltaTime, MIN_DELTA_TIME)
  }

  /** The angular-velocity channel's target: degrees turned per second, normalised into the channel's range. */
  function AngularVelocityTarget(s: MotionSettings, lastFwd: Vec3, fwd: Vec3, f: Frame): real {
    InverseLerp(s.min, s.max, f.engine.angleBetween(lastFwd, fwd) / TickDeltaTime(f))
  }

  /** The motion target's velocity since the pose cached on the last tick. */
  function MeasuredVelocity(t: TargetReading, lastPos: Vec3, f: Frame): Vec3 {
    t.position.Minus(lastPos).DividedBy(TickDeltaTime(f))
  }

  /** The speed a tick measures: only the two linear channels need it, otherwise it stays 0. */
  function MeasuredSpeed(vel: Vec3, velocity: MotionSettings, acceleration: MotionSettings, e: Engine): real {
    if velocity.use || acceleration.use then e.magnitude(vel) else 0.0
  }

  /** A channel's smoothing state after one tick: a SmoothDamp step towards `target`, or no change when it is off. */
  function SmoothStep(s: MotionSettings, smoothed: real, slew: real, target: real, f: Frame): (real, real) {
    if s.use then f.engine.smoothDamp(smoothed, target, slew, s.smoothing, f.deltaTime) else (smoothed, slew)
  }

  /**
   * The summed channel contributions for the given smoothed values: each enabled
   * channel's level times its strength, the velocity channel's level being the
   * normalised smoothed speed. A switched-off channel contributes nothing.
   */
  function ChannelSum(av: MotionSettings, vel: MotionSettings, acc: MotionSettings,
                      avSmoothed: real, speedSmoothed: real, accelSmoothed: real, e: Engine): (s: real)
    ensures !av.use && !vel.use && !acc.use ==> s == 0.0
  {
    Contribution(av, avSmoothed) + Contribution(vel, VelocityLevel(speedSmoothed, vel, e)) + Contribution(acc, accelSmoothed)
  }

  /** What one channel adds to the sum: its level times its strength when it is on. */
  function Contribution(s: MotionSettings, level: real): real {
    if s.use then level * s.strength else 0.0
  }

  /** A channel with a non-negative strength adds no less at a higher level. */
  lemma ContributionMonotone(s: MotionSettings, l1: real, l2: real)
    requires s.strength >= 0.0 && l1 <= l2
    ensures Contribution(s, l1) <= Contribution(s, l2)
  {
    if s.use {
      ScaleMonotone(s.strength, l1, l2);
      var p1, p2 := s.strength * l1, s.strength * l2;
      assert l1 * s.strength == p1 && l2 * s.strength == p2;
    }
  }

  /**
   * Channels with non-negative strengths: higher smoothed levels in every channel never
   * give a weaker effect, and with every channel off a tick rests at COVERAGE_MIN times
   * the remapped coverage.
   */
  lemma MoreChannelMotionNeverWeakens(av: MotionSettings, vel: MotionSettings, acc: MotionSettings,
                                      a1: real, s1: real, c1: real, a2: real, s2: real, c2: real,
                                      e: Engine, coverage: real)
    requires av.strength >= 0.0 && vel.strength >= 0.0 && acc.strength >= 0.0
    requires a1 <= a2 && c1 <= c2 && VelocityLevel(s1, vel, e) <= VelocityLevel(s2, vel, e)
    ensures EffectStrength(ChannelSum(av, vel, acc, a1, s1, c1, e), coverage)
            <= EffectStrength(ChannelSum(av, vel, acc, a2, s2, c2, e), coverage)
    ensures !av.use && !vel.use && !acc.use ==>
      EffectStrength(ChannelSum(av, vel, acc, a1, s1, c1, e), coverage) == COVERAGE_MIN * RemapRadius(coverage)
  {
    var v1, v2 := VelocityLevel(s1, vel, e), VelocityLevel(s2, vel, e);
    ContributionMonotone(av, a1, a2);
    ContributionMonotone(vel, v1, v2);
    ContributionMonotone(acc, c1, c2);
    var sum1, sum2 := ChannelSum(av, vel, acc, a1, s1, c1, e), ChannelSum(av, vel, acc, a2, s2, c2, e);
    assert sum1 == Contribution(av, a1) + Contribution(vel, v1) + Contribution(acc, c1);
    assert sum2 == Contribution(av, a2) + Contribution(vel, v2) + Contribution(acc, c2);
    EffectStrengthMonotone(sum1, sum2, coverage);
  }

  /** One axis of the tilt's log compression: `sign(a) * ln(|a| + 1)`. */
  function SignedLog(a: real, e: Engine): real {
    Sign(a) * e.ln(Abs(a) + 1.0)
  }

  /** The compression keeps the sign of its input and never increases its magnitude. */
  lemma SignedLogKeepsSignAndShrinks(a: real, e: Engine)
    requires LnBounded(e)
    ensures a >= 0.0 ==> 0.0 <= SignedLog(a, e) <= a
    ensures a < 0.0 ==> a <= SignedLog(a, e) <= 0.0
  {
    var l := e.ln(Abs(a) + 1.0);
    assert 0.0 <= l <= Abs(a);
  }

  /** The log compression of all three axes. */
  function LogCompressed(v: Vec3, e: Engine): Vec3 {
    Vec3(SignedLog(v.x, e), SignedLog(v.y, e), SignedLog(v.z, e))
  }

  /** The loop over the three axes that compresses the tilt's target acceleration. */
  method LogCompress(a: Vec3, e: Engine) returns (r: Vec3)
    ensures r == LogCompressed(a, e)
  {
    r := a;
    for i := 0 to 3
      invariant forall j :: 0 <= j < i ==> r.Get(j) == SignedLog(a.Get(j), e)
      invariant forall j :: i <= j < 3 ==> r.Get(j) == a.Get(j)
    {
      var acc := r.Get(i);
      var sign := Sign(acc);
      acc := Abs(acc);
      acc := e.ln(acc + 1.0);
      r := r.With(i, acc * sign);
    }
    assert r.Get(0) == r.x && r.Get(1) == r.y && r.Get(2) == r.z;
  }

  /**
   * The tilt applied on top of the target's initial orientation: pitch from forward
   * acceleration, roll from sideways acceleration, never any yaw. Each angle is clamped
   * to its limit unless both limits are zero. The raw angles are the code's
   * `new Angle3(v).eulerAcute`, read one axis at a time (`RawTiltReadsAngle3`).
   */
  function TiltAngles(smoothed: Vec3, strength: real, maxAngles: Vec2): (t: Vec3)
    ensures t.y == 0.0
    ensures maxAngles.SqrMagnitude() > 0.0 && maxAngles.x >= 0.0 ==> -maxAngles.x <= t.x <= maxAngles.x
    ensures maxAngles.SqrMagnitude() > 0.0 && maxAngles.y >= 0.0 ==> -maxAngles.y <= t.z <= maxAngles.y
    ensures maxAngles.SqrMagnitude() <= 0.0 ==> InRange(t.x, AngleType.ACUTE) && InRange(t.z, AngleType.ACUTE)
    ensures maxAngles.SqrMagnitude() <= 0.0 ==>
      WholeTurns(smoothed.z * strength - t.x) && WholeTurns(smoothed.x * strength - t.z)
  {
    var raw := RawTilt(smoothed.Times(strength));
    if maxAngles.SqrMagnitude() > 0.0 then
      Vec3(Clamp(raw.x, -maxAngles.x, maxAngles.x), 0.0, Clamp(raw.z, -maxAngles.y, maxAngles.y))
    else raw
  }

  /** The raw tilt is the code's `Angle3` conversion of the scaled acceleration, read acute. */
  /** Pitch from the forward component and roll from the sideways one, each normalised to (-180, 180]. */
  function RawTilt(scaled: Vec3): Vec3 {
    Vec3(ToAngle(scaled.z, AngleType.ACUTE), 0.0, ToAngle(scaled.x, AngleType.ACUTE))
  }

  /** The raw tilt is the code's `Angle3` conversion of the scaled acceleration, read acute. */
  lemma RawTiltReadsAngle3(scaled: Vec3)
    ensures RawTilt(scaled) == Angle3Of(Vec3(scaled.z, 0.0, scaled.x)).EulerAcute()
  {
    Angle3OfReadsBackComponentwise(Vec3(scaled.z, 0.0, scaled.x), AngleType.ACUTE);
    ToAngleFixesCanonical(0.0, AngleType.ACUTE);
  }

  /**
   * The Euler angles written to the motion-effect target: the initial orientation plus the
   * tilt, as the code's `tiltInit + new Angle3(tilt)` read acute (`TiltRotationReadsAngle3`).
   */
  function TiltRotationAngles(init: Angle3, tilt: Vec3): (r: Vec3)
    ensures InRange(r.x, AngleType.ACUTE) && InRange(r.y, AngleType.ACUTE) && InRange(r.z, AngleType.ACUTE)
    ensures WholeTurns(init.x.angle + tilt.x - r.x) && WholeTurns(init.y.angle + tilt.y - r.y)
    ensures WholeTurns(init.z.angle + tilt.z - r.z)
  {
    Vec3(ToAngle(init.x.angle + tilt.x, AngleType.ACUTE), ToAngle(init.y.angle + tilt.y, AngleType.ACUTE),
         ToAngle(init.z.angle + tilt.z, AngleType.ACUTE))
  }

  lemma TiltRotationReadsAngle3(init: Angle3, tilt: Vec3)
    ensures TiltRotationAngles(init, tilt) == Plus3(init, Angle3Of(tilt)).EulerAcute()
  {
    OffsetReadsBackAcute(init, tilt);
  }

  /**
   * The Euler angles of a counter-rotation step: the delta's Euler angles read acute (the
   * code's `new Angle3(eulerAngles).eulerAcute`, see `Angle3OfReadsBackComponentwise`),
   * scaled per axis and overall.
   */
  function CounterRotationAngles(deltaRot: Quat, perAxis: Vec3, strength: real, e: Engine): (ea: Vec3)
    ensures perAxis.x == 0.0 || strength == 0.0 ==> ea.x == 0.0
    ensures perAxis.y == 0.0 || strength == 0.0 ==> ea.y == 0.0
    ensures perAxis.z == 0.0 || strength == 0.0 ==> ea.z == 0.0
  {
    var d := e.eulerAngles(deltaRot);
    var acute := Vec3(ToAngle(d.x, AngleType.ACUTE), ToAngle(d.y, AngleType.ACUTE), ToAngle(d.z, AngleType.ACUTE));
    Vec3(acute.x * perAxis.x, acute.y * perAxis.y, acute.z * perAxis.z).Times(strength)
  }

  /** `GetCounterRotationDelta`: the rotation one counter-rotation step applies. */
  function CounterRotationDelta(deltaRot: Quat, perAxis: Vec3, strength: real, e: Engine): Quat {
    e.euler(CounterRotationAngles(deltaRot, perAxis, strength, e))
  }

  /** A Transform's local pose: what the component writes into it. */
  datatype LocalPose = LocalPose(localPosition: Vec3, localRotation: Quat)

  /** The parent space of a Transform as the engine reports it this frame. */
  datatype ParentSpace = ParentSpace(pointToWorld: Vec3 -> Vec3, pointToLocal: Vec3 -> Vec3, rotation: Quat)

  /** The world position of a pose. */
  function WorldPosition(p: LocalPose, s: ParentSpace): Vec3 { s.pointToWorld(p.localPosition) }

  /** The world rotation of a pose. */
  function WorldRotation(p: LocalPose, s: ParentSpace, e: Engine): Quat { e.mul(s.rotation, p.localRotation) }

  /** What the motion target's Transform reports this frame. */
  datatype TargetReading = TargetReading(
    forward: Vec3, position: Vec3, rotation: Quat,
    inverseTransformDirection: Vec3 -> Vec3, inverseTransformVector: Vec3 -> Vec3)

  /**
   * Everything a tick reads from the engine: the frame's delta time, frame count and
   * time, the motion target (`None` when it is null), the parent spaces of Transforms,
   * the engine primitives and an optional forced effect value.
   */
  datatype Frame = Frame(
    deltaTime: real, frameCount: nat, time: real, target: Option<TargetReading>,
    parentOf: ObjectId -> ParentSpace, engine: Engine, forcedValue: Option<real>)

  /** The result of a tick: an effect strength, or the null dereference that aborted it. */
  datatype MotionResult = Strength(value: real) | NullReference

  /**
   * The state of the motion-effect target: the tilt switch and target the tilt was set
   * up for, the tilt's smoothing, the orientation and local pose recorded when the
   * target was adopted, framerate division's last divisor and cached world pose, and the
   * local poses of the Transforms the component moves.
   */
  datatype EffectTargetState = EffectTargetState(
    prevUseTilt: bool, prevMotionEffectTarget: Option<ObjectId>, tiltAccelSmoothed: Vec3, tiltAccelSlew: Vec3,
    tiltInit: Angle3, mfxTgtLocalPosInit: Vec3, mfxTgtLocalRotInit: Quat,
    lastFpsDivision: int, fpsPosition: Vec3, fpsRotation: Quat, poses: map<ObjectId, LocalPose>)

  /**
   * What a tick leaves for the next one: the cached forward vector, position, speed,
   * rotation and velocity, the counter-rotation and the channels' smoothing state.
   */
  datatype TickMemory = TickMemory(lastFwd: Vec3, lastPos: Vec3, lastSpeed: real, lastRot: Quat, cmRot: Quat,
                                   avSmoothed: real, avSlew: real, speedSmoothed: real, speedSlew: real,
                                   accelSmoothed: real, accelSlew: real, lastVel: Vec3, effect: EffectTargetState)

  /** Values the analysis part of a tick hands to its counter-motion and caching parts. */
  datatype MotionSample = MotionSample(channelSum: real, fwd: Vec3, speed: real, vel: Vec3, dPos: Vec3)

  /** Framerate division with divisor `n` is active and divides something. */
  predicate DividesFrames(n: int, translation: bool, rotation: bool) {
    n > 1 && (translation || rotation)
  }

  /** On frame `frameCount` the cached pose is written back onto the motion-effect target. */
  predicate WritesBackOn(frameCount: nat, n: int, translation: bool, rotation: bool) {
    DividesFrames(n, translation, rotation) && frameCount % n != 0
  }

  /** On frame `frameCount` the cached pose is refreshed (`previous` is the divisor of the last tick). */
  predicate RefreshesOn(frameCount: nat, previous: int, n: int, translation: bool, rotation: bool) {
    (DividesFrames(n, translation, rotation) && frameCount % n == 0) || previous != n
  }

  /** Framerate division dereferences a null motion-effect target on this frame. */
  predicate DivisionFailsOn(target: Option<ObjectId>, frameCount: nat, previous: int, n: int, translation: bool, rotation: bool) {
    target.None?
    && (WritesBackOn(frameCount, n, translation, rotation)
        || (RefreshesOn(frameCount, previous, n, translation, rotation) && (translation || rotation)))
  }

  /** The settings of a component that steer its motion-effect target. */
  datatype EffectSettings = EffectSettings(
    useArtificialTilt: bool, motionEffectTarget: Option<ObjectId>, tiltSmoothTime: real, tiltStrength: real, tiltMaxAngles: Vec2,
    framerateDivision: int, divideTranslation: bool, divideRotation: bool)

  /** `s` holds a pose for the motion-effect target and for the one the tilt was set up for. */
  predicate HoldsTargets(c: EffectSettings, s: EffectTargetState) {
    (c.motionEffectTarget.Some? ==> c.motionEffectTarget.value in s.poses)
    && (s.prevMotionEffectTarget.Some? ==> s.prevMotionEffectTarget.value in s.poses)
  }

  /**
   * What `RetargetTilt` makes of `s`: when the tilt switch or the target changed, the
   * smoothing restarts, the previous target gets back its recorded orientation and the
   * new target's pose is recorded. Afterwards the tilt is set up for the current settings.
   */
  function Retargeted(c: EffectSettings, s: EffectTargetState, f: Frame): (r: EffectTargetState)
    requires HoldsTargets(c, s)
    ensures r.poses.Keys == s.poses.Keys && HoldsTargets(c, r)
    ensures r.prevUseTilt == c.useArtificialTilt && r.prevMotionEffectTarget == c.motionEffectTarget
    ensures r.lastFpsDivision == s.lastFpsDivision && r.fpsPosition == s.fpsPosition && r.fpsRotation == s.fpsRotation
  {
    if c.useArtificialTilt == s.prevUseTilt && c.motionEffectTarget == s.prevMotionEffectTarget then s
    else Adopted(c, Restarted(c, s, f), f)
  }

  /**
   * The first half of a retarget: the tilt switch is recorded, the smoothing restarts
   * and the previous target gets back the orientation recorded when it was adopted.
   */
  function Restarted(c: EffectSettings, s: EffectTargetState, f: Frame): (r: EffectTargetState)
    requires s.prevMotionEffectTarget.Some? ==> s.prevMotionEffectTarget.value in s.poses
    ensures r.poses.Keys == s.poses.Keys && r.prevMotionEffectTarget == s.prevMotionEffectTarget
  {
    var restored :=
      if s.prevMotionEffectTarget.Some? then
        var p := s.prevMotionEffectTarget.value;
        s.poses[p := s.poses[p].(localRotation := f.engine.euler(s.tiltInit.EulerAcute()))]
      else s.poses;
    s.(prevUseTilt := c.useArtificialTilt, tiltAccelSmoothed := Zero3, tiltAccelSlew := Zero3, poses := restored)
  }

  /**
   * The second half of a retarget: the current target's orientation (as Euler angles)
   * and local pose are recorded, or no orientation when there is none, and it becomes
   * the target the tilt is set up for.
   */
  function Adopted(c: EffectSettings, s: EffectTargetState, f: Frame): (r: EffectTargetState)
    requires c.motionEffectTarget.Some? ==> c.motionEffectTarget.value in s.poses
    ensures r.poses == s.poses && r.prevMotionEffectTarget == c.motionEffectTarget
  {
    var recorded :=
      if c.motionEffectTarget.Some? then
        var pose := s.poses[c.motionEffectTarget.value];
        s.(tiltInit := Angle3Of(f.engine.eulerAngles(pose.localRotation)),
           mfxTgtLocalPosInit := pose.localPosition, mfxTgtLocalRotInit := pose.localRotation)
      else s.(tiltInit := NoRotation);
    recorded.(prevMotionEffectTarget := c.motionEffectTarget)
  }

  /**
   * What `ApplyTilt` makes of `s` for this frame's velocity `vel`, the cached velocity
   * `lastVel` and the delta time `dT`: with tilt on and a target, the smoothing takes one
   * step towards the compressed acceleration and the target's rotation becomes the
   * recorded orientation plus the tilt. Nothing else changes.
   */
  function Tilted(c: EffectSettings, s: EffectTargetState, vel: Vec3, lastVel: Vec3, dT: real, t: TargetReading, f: Frame)
    : (r: EffectTargetState)
    requires HoldsTargets(c, s) && dT > 0.0
    ensures r.poses.Keys == s.poses.Keys && HoldsTargets(c, r)
    ensures r == s.(tiltAccelSmoothed := r.tiltAccelSmoothed, tiltAccelSlew := r.tiltAccelSlew, poses := r.poses)
  {
    if c.useArtificialTilt && c.motionEffectTarget.Some? then
      var target := LogCompressed(t.inverseTransformDirection(vel.Minus(lastVel)).DividedBy(dT), f.engine);
      var smoothed := f.engine.smoothDampVector(s.tiltAccelSmoothed, target, s.tiltAccelSlew, c.tiltSmoothTime, TILT_MAX_SPEED, dT);
      var tgt := c.motionEffectTarget.value;
      var rot := f.engine.euler(TiltRotationAngles(s.tiltInit, TiltAngles(smoothed.0, c.tiltStrength, c.tiltMaxAngles)));
      s.(tiltAccelSmoothed := smoothed.0, tiltAccelSlew := smoothed.1, poses := s.poses[tgt := s.poses[tgt].(localRotation := rot)])
    else s
  }

  /**
   * What `HoldDividedPose` makes of `s`: whether it succeeded, whether the cache is due,
   * and the state. Between multiples of the divisor the cached world pose is written back
   * onto the target (a null target fails, changing nothing); the divisor is recorded.
   */
  function Held(c: EffectSettings, s: EffectTargetState, f: Frame): (bool, bool, EffectTargetState)
    requires HoldsTargets(c, s)
  {
    var writeBack := WritesBackOn(f.frameCount, c.framerateDivision, c.divideTranslation, c.divideRotation);
    if writeBack && c.motionEffectTarget.None? then (false, false, s)
    else
      var held :=
        if writeBack then
          var tgt := c.motionEffectTarget.value;
          var space := f.parentOf(tgt);
          s.poses[tgt := LocalPose(space.pointToLocal(s.fpsPosition), f.engine.mul(f.engine.inverse(space.rotation), s.fpsRotation))]
        else s.poses;
      (true, RefreshesOn(f.frameCount, s.lastFpsDivision, c.framerateDivision, c.divideTranslation, c.divideRotation),
       s.(poses := held, lastFpsDivision := c.framerateDivision))
  }

  /**
   * What `RefreshDividedPose` makes of `s`: each divided part of the target's pose is
   * reset to its recorded local value and cached in world space; a null target that
   * something is divided for fails, changing nothing.
   */
  function Refreshed(c: EffectSettings, s: EffectTargetState, f: Frame): (bool, EffectTargetState)
    requires HoldsTargets(c, s)
  {
    if c.motionEffectTarget.None? then (!(c.divideTranslation || c.divideRotation), s)
    else
      var tgt := c.motionEffectTarget.value;
      var space := f.parentOf(tgt);
      var moved :=
        if c.divideTranslation then
          var pose := s.poses[tgt].(localPosition := s.mfxTgtLocalPosInit);
          s.(poses := s.poses[tgt := pose], fpsPosition := WorldPosition(pose, space))
        else s;
      var turned :=
        if c.divideRotation then
          var pose := moved.poses[tgt].(localRotation := moved.mfxTgtLocalRotInit);
          moved.(poses := moved.poses[tgt := pose], fpsRotation := WorldRotation(pose, space, f.engine))
        else moved;
      (true, turned)
  }

  /** What `DivideFramerate` makes of `s`: `Held`, then `Refreshed` when the cache is due. */
  function Divided(c: EffectSettings, s: EffectTargetState, f: Frame): (bool, EffectTargetState)
    requires HoldsTargets(c, s)
  {
    var held := Held(c, s, f);
    if held.0 && held.1 then Refreshed(c, held.2, f) else (held.0, held.2)
  }

  /**
   * What `MoveEffectTarget` makes of `s` for this frame's velocity `vel` and the cached
   * velocity `lastVel`: `Retargeted`, `Tilted`, then `Divided`; the flag is false when
   * framerate division dereferenced a null target.
   */
  function Moved(c: EffectSettings, s: EffectTargetState, vel: Vec3, lastVel: Vec3, t: TargetReading, f: Frame): (bool, EffectTargetState)
    requires HoldsTargets(c, s)
  {
    Divided(c, Tilted(c, Retargeted(c, s, f), vel, lastVel, TickDeltaTime(f), t, f), f)
  }

  /**
   * A tick's motion-effect part fails exactly when framerate division dereferences a
   * null target: retargeting and tilt keep the recorded divisor and never fail.
   */
  lemma MovedFailsOnlyOnNullDivision(c: EffectSettings, s: EffectTargetState, vel: Vec3, lastVel: Vec3, t: TargetReading, f: Frame)
    requires HoldsTargets(c, s)
    ensures Moved(c, s, vel, lastVel, t, f).0
            <==> !DivisionFailsOn(c.motionEffectTarget, f.frameCount, s.lastFpsDivision,
                                  c.framerateDivision, c.divideTranslation, c.divideRotation)
  {
    var tilted := Tilted(c, Retargeted(c, s, f), vel, lastVel, TickDeltaTime(f), t, f);
    assert tilted.lastFpsDivision == s.lastFpsDivision;
  }

  /**
   * A component with tilt off and no framerate division whose settings did not change
   * since the last tick leaves its motion-effect target state exactly as it was.
   */
  lemma IdleTargetStaysPut(c: EffectSettings, s: EffectTargetState, vel: Vec3, lastVel: Vec3, t: TargetReading, f: Frame)
    requires HoldsTargets(c, s)
    requires !c.useArtificialTilt && c.framerateDivision <= 1
    requires s.prevUseTilt == c.useArtificialTilt && s.prevMotionEffectTarget == c.motionEffectTarget
    requires s.lastFpsDivision == c.framerateDivision
    ensures Moved(c, s, vel, lastVel, t, f) == (true, s)
  {
  }

  /** `Moved` is its three steps in turn. */
  lemma MovedComposes(c: EffectSettings, s: EffectTargetState, tilted: EffectTargetState, ok: bool, divided: EffectTargetState,
                      vel: Vec3, lastVel: Vec3, t: TargetReading, f: Frame)
    requires HoldsTargets(c, s)
    requires tilted == Tilted(c, Retargeted(c, s, f), vel, lastVel, TickDeltaTime(f), t, f)
    requires HoldsTargets(c, tilted) && (ok, divided) == Divided(c, tilted, f)
    ensures (ok, divided) == Moved(c, s, vel, lastVel, t, f)
  {
  }

  /**
   * `e` is the motion-effect target's state after a tick under the settings `c` that
   * measured `t` against `prev`: `Moved` applied to the state `prev` left, with this
   * frame's velocity and the cached one.
   */
  predicate TargetMoved(c: EffectSettings, e: EffectTargetState, t: TargetReading, f: Frame, prev: TickMemory) {
    HoldsTargets(c, prev.effect) && e == Moved(c, prev.effect, MeasuredVelocity(t, prev.lastPos, f), prev.lastVel, t, f).1
  }

  class MotionCore {
    // Configuration (public fields of the component).
    var effectColor: Color
    var effectCoverage: real
    var effectFeather: real
    var effectSkybox: Option<ObjectId>
    var applyColorToBackground: bool
    var angularVelocity: MotionSettings
    var acceleration: MotionSettings
    var velocity: MotionSettings
    var useCounterMotion: bool
    var counterRotationStrength: real
    var counterRotationPerAxis: Vec3
    /** The settings of the motion-effect target: its Transform, tilt and framerate division. */
    var motionEffects: EffectSettings

    // Motion state.
    var lastRot: Quat
    var lastFwd: Vec3
    var lastPos: Vec3
    var lastSpeed: real
    var lastVel: Vec3
    var cmRot: Quat
    var avSmoothed: real
    var avSlew: real
    var speedSmoothed: real
    var speedSlew: real
    var accelSmoothed: real
    var accelSlew: real

    /**
     * The motion-effect target's state: the bookkeeping of tilt and framerate division,
     * and the local poses of the Transforms the component moves.
     */
    var effect: EffectTargetState

    /** Every Transform the component refers to exists. */
    predicate Valid()
      reads this`motionEffects, this`effect
    {
      (motionEffects.motionEffectTarget.Some? ==> motionEffects.motionEffectTarget.value in effect.poses)
      && (effect.prevMotionEffectTarget.Some? ==> effect.prevMotionEffectTarget.value in effect.poses)
    }

    /** A component with its declared field initialisers, in a scene with the given Transforms. */
    constructor (scene: map<ObjectId, LocalPose>)
      ensures Valid() && effect.poses == scene
      ensures effectColor == Black && effectCoverage == 0.75 && effectFeather == 0.1
      ensures effectSkybox.None? && !applyColorToBackground
      ensures angularVelocity == MotionSettings(true, 1.0, 0.0, 180.0, 0.15)
      ensures acceleration == MotionSettings(false, 1.0, 0.0, 0.0, 0.15)
      ensures velocity == MotionSettings(false, 1.0, 0.0, 0.0, 0.15)
      ensures !useCounterMotion && counterRotationStrength == 1.0 && counterRotationPerAxis == Vec3(0.0, 1.0, 0.0)
      ensures motionEffects == EffectSettings(false, None, 0.0, 0.0, Vec2(5.0, 5.0), 1, true, true)
      ensures effect.prevMotionEffectTarget.None? && !effect.prevUseTilt && effect.lastFpsDivision == 1
    {
      effectColor, effectCoverage, effectFeather := Black, 0.75, 0.1;
      effectSkybox, applyColorToBackground := None, false;
      angularVelocity := MotionSettings(true, 1.0, 0.0, 180.0, 0.15);
      acceleration := MotionSettings(false, 1.0, 0.0, 0.0, 0.15);
      velocity := MotionSettings(false, 1.0, 0.0, 0.0, 0.15);
      useCounterMotion, counterRotationStrength, counterRotationPerAxis := false, 1.0, Vec3(0.0, 1.0, 0.0);
      motionEffects := EffectSettings(false, None, 0.0, 0.0, Vec2(5.0, 5.0), 1, true, true);
      var zeroQuat := Quat(0.0, 0.0, 0.0, 0.0);
      lastRot, lastFwd, lastPos, lastSpeed, lastVel, cmRot := zeroQuat, Zero3, Zero3, 0.0, Zero3, zeroQuat;
      avSmoothed, avSlew, speedSmoothed, speedSlew, accelSmoothed, accelSlew := 0.0, 0.0, 0.0, 0.0, 0.0, 0.0;
      effect := EffectTargetState(false, None, Zero3, Zero3, NoRotation, Zero3, zeroQuat, 1, Zero3, zeroQuat, scene);
    }

    /** The state one tick leaves for the next. */
    function Memory(): TickMemory
      reads this`lastFwd, this`lastPos, this`lastSpeed, this`lastRot, this`cmRot, this`lastVel
      reads this`avSmoothed, this`avSlew, this`speedSmoothed, this`speedSlew, this`accelSmoothed, this`accelSlew, this`effect
    {
      TickMemory(lastFwd, lastPos, lastSpeed, lastRot, cmRot, avSmoothed, avSlew, speedSmoothed, speedSlew, accelSmoothed, accelSlew,
                 lastVel, effect)
    }

    /**
     * The smoothing state after measuring `t` against the motion `prev` cached before
     * the tick: each enabled channel took one SmoothDamp step towards this frame's
     * target, and a switched-off channel kept its state.
     */
    predicate Measured(t: TargetReading, f: Frame, prev: TickMemory)
      reads this`angularVelocity, this`velocity, this`acceleration
      reads this`avSmoothed, this`avSlew, this`speedSmoothed, this`speedSlew, this`accelSmoothed, this`accelSlew
    {
      var dT := TickDeltaTime(f);
      var speed := MeasuredSpeed(MeasuredVelocity(t, prev.lastPos, f), velocity, acceleration, f.engine);
      (avSmoothed, avSlew)
        == SmoothStep(angularVelocity, prev.avSmoothed, prev.avSlew, AngularVelocityTarget(angularVelocity, prev.lastFwd, t.forward, f), f)
      && (speedSmoothed, speedSlew) == SmoothStep(velocity, prev.speedSmoothed, prev.speedSlew, speed, f)
      && (accelSmoothed, accelSlew)
        == SmoothStep(acceleration, prev.accelSmoothed, prev.accelSlew,
                      AccelerationTarget(Abs(speed - prev.lastSpeed) / dT, acceleration, f.engine), f)
    }

    /** This frame's motion of `t`, measured against `prev`, is cached for the next tick. */
    predicate Cached(t: TargetReading, f: Frame, prev: TickMemory)
      reads this`velocity, this`acceleration, this`lastFwd, this`lastPos, this`lastRot, this`lastVel, this`lastSpeed
    {
      var vel := MeasuredVelocity(t, prev.lastPos, f);
      lastFwd == t.forward && lastPos == t.position && lastRot == t.rotation
      && lastVel == vel && lastSpeed == MeasuredSpeed(vel, velocity, acceleration, f.engine)
    }

    /**
     * `sample` is what measuring `t` against `prev` produced: the channels were
     * smoothed (`Measured`) and the sample holds this frame's forward vector, displacement,
     * velocity and speed, and the channels' new sum.
     */
    predicate Sampled(t: TargetReading, f: Frame, prev: TickMemory, sample: MotionSample)
      reads this`angularVelocity, this`velocity, this`acceleration
      reads this`avSmoothed, this`avSlew, this`speedSmoothed, this`speedSlew, this`accelSmoothed, this`accelSlew
    {
      Measured(t, f, prev)
      && sample.fwd == t.forward && sample.dPos == t.position.Minus(prev.lastPos)
      && sample.vel == MeasuredVelocity(t, prev.lastPos, f)
      && sample.speed == MeasuredSpeed(sample.vel, velocity, acceleration, f.engine)
      && sample.channelSum == ChannelTotal(f.engine)
    }

    /**
     * The counter-rotation after a tick that saw `t`: when counter-motion is on with a
     * positive strength, one step against the rotation since `prev` is applied.
     */
    predicate CounterRotated(t: TargetReading, e: Engine, prev: TickMemory)
      reads this`cmRot, this`useCounterMotion, this`counterRotationStrength, this`counterRotationPerAxis
    {
      cmRot == if useCounterMotion && counterRotationStrength > 0.0
               then e.mul(CounterRotationDelta(e.mul(e.inverse(t.rotation), prev.lastRot),
                                               counterRotationPerAxis, counterRotationStrength, e), prev.cmRot)
               else prev.cmRot
    }

    /** The sum of the channels' contributions at their current smoothed values. */
    function ChannelTotal(e: Engine): real
      reads this`angularVelocity, this`velocity, this`acceleration, this`avSmoothed, this`speedSmoothed, this`accelSmoothed
    {
      ChannelSum(angularVelocity, velocity, acceleration, avSmoothed, speedSmoothed, accelSmoothed, e)
    }

    /**
     * The state a completed or aborted tick that measured `t` against the motion `prev`
     * leaves, for its result `r`: the channels were smoothed, and when the tick completed
     * it returned `EffectStrength` of the forced value or of the channels' new sum and
     * cached this frame's motion.
     */
    predicate TickOutcome(t: TargetReading, f: Frame, prev: TickMemory, r: MotionResult)
      reads this`angularVelocity, this`velocity, this`acceleration, this`effectCoverage
      reads this`avSmoothed, this`avSlew, this`speedSmoothed, this`speedSlew, this`accelSmoothed, this`accelSlew
      reads this`lastFwd, this`lastPos, this`lastRot, this`lastVel, this`lastSpeed
    {
      Measured(t, f, prev)
      && (r.Strength? ==>
            r.value == EffectStrength(if f.forcedValue.Some? then f.forcedValue.value else ChannelTotal(f.engine), effectCoverage)
            && Cached(t, f, prev))
    }

    /** The motion state `ResetMotion` leaves: the pose of `t` cached, no smoothing, no counter-rotation. */
    predicate MotionReset(t: TargetReading)
      reads this
    {
      lastFwd == t.forward && lastPos == t.position && lastSpeed == 0.0 && lastRot == t.rotation
      && avSmoothed == 0.0 && avSlew == 0.0 && speedSmoothed == 0.0 && speedSlew == 0.0
      && accelSmoothed == 0.0 && accelSlew == 0.0 && cmRot == IdentityQuat
    }

    /** Angular-velocity channel: degrees turned since the last tick, per second, normalised and smoothed. */
    method AngularVelocityChannel(fwd: Vec3, f: Frame) returns (contribution: real)
      modifies this`avSmoothed, this`avSlew
      ensures (avSmoothed, avSlew)
        == SmoothStep(angularVelocity, old(avSmoothed), old(avSlew), AngularVelocityTarget(angularVelocity, lastFwd, fwd, f), f)
      ensures contribution == Contribution(angularVelocity, avSmoothed)
    {
      contribution := 0.0;
      if angularVelocity.use {
        var av := f.engine.angleBetween(lastFwd, fwd) / TickDeltaTime(f);
        av := InverseLerp(angularVelocity.min, angularVelocity.max, av);
        var smoothed := f.engine.smoothDamp(avSmoothed, av, avSlew, angularVelocity.smoothing, f.deltaTime);
        avSmoothed, avSlew := smoothed.0, smoothed.1;
        contribution := avSmoothed * angularVelocity.strength;
      }
    }

    /** Linear-velocity channel: the speed smoothed, then normalised into the channel's range. */
    method VelocityChannel(speed: real, f: Frame) returns (contribution: real)
      modifies this`speedSmoothed, this`speedSlew
      ensures (speedSmoothed, speedSlew) == SmoothStep(velocity, old(speedSmoothed), old(speedSlew), speed, f)
      ensures contribution == Contribution(velocity, VelocityLevel(speedSmoothed, velocity, f.engine))
    {
      contribution := 0.0;
      if velocity.use {
        var smoothed := f.engine.smoothDamp(speedSmoothed, speed, speedSlew, velocity.smoothing, f.deltaTime);
        speedSmoothed, speedSlew := smoothed.0, smoothed.1;
        var lm := 0.0;
        if !Approximately(f.engine, velocity.max, velocity.min) {
          lm := Clamp01((speedSmoothed - velocity.min) / (velocity.max - velocity.min));
        }
        contribution := lm * velocity.strength;
      }
    }

    /** Linear-acceleration channel, driven by the unsmoothed speed of this and the last frame. */
    method AccelerationChannel(speed: real, f: Frame) returns (contribution: real)
      modifies this`accelSmoothed, this`accelSlew
      ensures (accelSmoothed, accelSlew)
        == SmoothStep(acceleration, old(accelSmoothed), old(accelSlew),
                      AccelerationTarget(Abs(speed - lastSpeed) / TickDeltaTime(f), acceleration, f.engine), f)
      ensures contribution == Contribution(acceleration, accelSmoothed)
    {
      contribution := 0.0;
      if acceleration.use {
        var accel := Abs(speed - lastSpeed) / TickDeltaTime(f);
        if !Approximately(f.engine, acceleration.max, acceleration.min) {
          accel := Clamp01((accel - acceleration.min) / (acceleration.max - acceleration.min));
        }
        var smoothed := f.engine.smoothDamp(accelSmoothed, accel, accelSlew, acceleration.smoothing, f.deltaTime);
        accelSmoothed, accelSlew := smoothed.0, smoothed.1;
        contribution := accelSmoothed * acceleration.strength;
      }
    }

    /**
     * Tilt re-initialisation: when the tilt switch or the motion-effect target changed since
     * the last tick, the smoothing restarts, the previous target gets back the orientation
     * recorded when it was adopted, and the new target's pose is recorded.
     */
    method RetargetTilt(f: Frame)
      requires Valid()
      modifies this`effect
      ensures Valid() && effect.poses.Keys == old(effect.poses.Keys)
      ensures HoldsTargets(motionEffects, old(effect)) && effect == Retargeted(motionEffects, old(effect), f)
    {
      if motionEffects.useArtificialTilt != effect.prevUseTilt || motionEffects.motionEffectTarget != effect.prevMotionEffectTarget {
        RestartTilt(f);
        AdoptTiltTarget(f);
      }
    }

    /** The first half of a retarget: the smoothing restarts and the previous target is restored. */
    method RestartTilt(f: Frame)
      requires Valid()
      modifies this`effect
      ensures Valid() && effect.poses.Keys == old(effect.poses.Keys)
      ensures effect == Restarted(motionEffects, old(effect), f)
    {
      effect := effect.(prevUseTilt := motionEffects.useArtificialTilt, tiltAccelSmoothed := Zero3, tiltAccelSlew := Zero3);
      if effect.prevMotionEffectTarget.Some? {
        SetLocalRotation(effect.prevMotionEffectTarget.value, f.engine.euler(effect.tiltInit.EulerAcute()));
      }
    }

    /** The second half of a retarget: the new target's pose is recorded and it becomes the previous target. */
    method AdoptTiltTarget(f: Frame)
      requires Valid()
      modifies this`effect
      ensures effect.prevMotionEffectTarget == motionEffects.motionEffectTarget && Valid()
      ensures effect == Adopted(motionEffects, old(effect), f)
    {
      if motionEffects.motionEffectTarget.Some? {
        var pose := effect.poses[motionEffects.motionEffectTarget.value];
        effect := effect.(tiltInit := Angle3Of(f.engine.eulerAngles(pose.localRotation)),
                          mfxTgtLocalPosInit := pose.localPosition, mfxTgtLocalRotInit := pose.localRotation);
      } else {
        effect := effect.(tiltInit := NoRotation);
      }
      effect := effect.(prevMotionEffectTarget := motionEffects.motionEffectTarget);
    }

    /**
     * Artificial tilt: the target acceleration in the motion target's space is compressed,
     * smoothed and turned into a pitch/roll offset from the recorded initial orientation.
     */
    method ApplyTilt(vel: Vec3, dT: real, t: TargetReading, f: Frame)
      requires Valid() && dT > 0.0
      modifies this`effect
      ensures Valid() && effect.poses.Keys == old(effect.poses.Keys)
      ensures HoldsTargets(motionEffects, old(effect))
      ensures effect == Tilted(motionEffects, old(effect), vel, lastVel, dT, t, f)
    {
      if motionEffects.useArtificialTilt && motionEffects.motionEffectTarget.Some? {
        var accTgt := t.inverseTransformDirection(vel.Minus(lastVel)).DividedBy(dT);
        accTgt := LogCompress(accTgt, f.engine);
        var smoothed := f.engine.smoothDampVector(effect.tiltAccelSmoothed, accTgt, effect.tiltAccelSlew, motionEffects.tiltSmoothTime, TILT_MAX_SPEED, dT);
        effect := effect.(tiltAccelSmoothed := smoothed.0, tiltAccelSlew := smoothed.1);
        var tilt := TiltAngles(effect.tiltAccelSmoothed, motionEffects.tiltStrength, motionEffects.tiltMaxAngles);
        SetLocalRotation(motionEffects.motionEffectTarget.value, f.engine.euler(TiltRotationAngles(effect.tiltInit, tilt)));
      }
    }

    /** Writes the local rotation of the Transform `id`, which keeps the scene's Transforms. */
    method SetLocalRotation(id: ObjectId, rot: Quat)
      requires Valid() && id in effect.poses
      modifies this`effect
      ensures effect == old(effect).(poses := old(effect.poses)[id := old(effect.poses)[id].(localRotation := rot)])
      ensures Valid() && effect.poses.Keys == old(effect.poses.Keys)
    {
      effect := effect.(poses := effect.poses[id := effect.poses[id].(localRotation := rot)]);
    }

    /**
     * Framerate division: on frames that are not a multiple of the divisor the cached
     * world pose is written back onto the motion-effect target; on multiples, and whenever
     * the divisor changed since the last tick, the target is reset to its recorded local
     * pose and the cache is refreshed from it (translation and rotation each only when
     * divided). `ok` is false when the target is null but needed.
     */
    method DivideFramerate(f: Frame) returns (ok: bool)
      requires Valid()
      modifies this`effect
      ensures Valid() && effect.poses.Keys == old(effect.poses.Keys)
      ensures HoldsTargets(motionEffects, old(effect)) && (ok, effect) == Divided(motionEffects, old(effect), f)
    {
      var refresh;
      ok, refresh := HoldDividedPose(f);
      if ok && refresh {
        ok := RefreshDividedPose(f);
      }
    }

    /**
     * The first half of framerate division: on frames between multiples of the divisor
     * the cached world pose goes back onto the target; `refresh` says whether the cache is
     * due (a multiple of the divisor, or the divisor changed, which is then recorded).
     */
    method HoldDividedPose(f: Frame) returns (ok: bool, refresh: bool)
      requires Valid()
      modifies this`effect
      ensures Valid() && effect.poses.Keys == old(effect.poses.Keys)
      ensures HoldsTargets(motionEffects, old(effect)) && (ok, refresh, effect) == Held(motionEffects, old(effect), f)
    {
      refresh := false;
      if motionEffects.framerateDivision > 1 && (motionEffects.divideTranslation || motionEffects.divideRotation) {
        if f.frameCount % motionEffects.framerateDivision == 0 {
          refresh := true;
        } else {
          if motionEffects.motionEffectTarget.None? {
            return false, false;
          }
          var tgt := motionEffects.motionEffectTarget.value;
          var space := f.parentOf(tgt);
          var held := LocalPose(space.pointToLocal(effect.fpsPosition), f.engine.mul(f.engine.inverse(space.rotation), effect.fpsRotation));
          effect := effect.(poses := effect.poses[tgt := held]);
        }
      }
      if effect.lastFpsDivision != motionEffects.framerateDivision {
        refresh := true;
        effect := effect.(lastFpsDivision := motionEffects.framerateDivision);
      }
      ok := true;
    }

    /**
     * The second half of framerate division: each divided part of the target's pose is
     * reset to its recorded local value and the cache is refreshed from the result.
     */
    method RefreshDividedPose(f: Frame) returns (ok: bool)
      requires Valid()
      modifies this`effect
      ensures Valid() && effect.poses.Keys == old(effect.poses.Keys)
      ensures HoldsTargets(motionEffects, old(effect)) && (ok, effect) == Refreshed(motionEffects, old(effect), f)
    {
      if motionEffects.divideTranslation {
        if motionEffects.motionEffectTarget.None? {
          return false;
        }
        var tgt := motionEffects.motionEffectTarget.value;
        var pose := effect.poses[tgt].(localPosition := effect.mfxTgtLocalPosInit);
        effect := effect.(poses := effect.poses[tgt := pose], fpsPosition := WorldPosition(pose, f.parentOf(tgt)));
      }
      if motionEffects.divideRotation {
        if motionEffects.motionEffectTarget.None? {
          return false;
        }
        var tgt := motionEffects.motionEffectTarget.value;
        var pose := effect.poses[tgt].(localRotation := effect.mfxTgtLocalRotInit);
        effect := effect.(poses := effect.poses[tgt := pose], fpsRotation := WorldRotation(pose, f.parentOf(tgt), f.engine));
      }
      return true;
    }

    /** `UpdateCounterMotion` (this component's part): accumulate the counter-rotation. */
    method UpdateCounterMotion(deltaRot: Quat, e: Engine)
      modifies this`cmRot
      ensures cmRot == if counterRotationStrength > 0.0
                       then e.mul(CounterRotationDelta(deltaRot, counterRotationPerAxis, counterRotationStrength, e), old(cmRot))
                       else old(cmRot)
    {
      if counterRotationStrength > 0.0 {
        cmRot := e.mul(CounterRotationDelta(deltaRot, counterRotationPerAxis, counterRotationStrength, e), cmRot);
      }
    }

    /**
     * The measuring part of a tick: delta time floored, then the three channels. The
     * sample carries the summed contributions and the motion the rest of the tick needs.
     */
    method MeasureMotion(t: TargetReading, f: Frame) returns (sample: MotionSample)
      modifies this`avSmoothed, this`avSlew, this`speedSmoothed, this`speedSlew, this`accelSmoothed, this`accelSlew
      ensures Sampled(t, f, old(Memory()), sample)
    {
      var dT := TickDeltaTime(f);
      var fwd := t.forward;
      var av := AngularVelocityChannel(fwd, f);
      var speed := 0.0;
      var dPos := t.position.Minus(lastPos);
      var vel := dPos.DividedBy(dT);
      if velocity.use || acceleration.use {
        speed := f.engine.magnitude(vel);
      }
      var lv := VelocityChannel(speed, f);
      var la := AccelerationChannel(speed, f);
      sample := MotionSample(av + lv + la, fwd, speed, vel, dPos);
    }

    /**
     * The motion-effect part of a tick: tilt re-initialisation, tilt and framerate
     * division, as `Moved` states. `ok` is false when framerate division dereferenced a
     * null motion-effect target, which aborts the tick (`MovedFailsOnlyOnNullDivision`).
     */
    method MoveEffectTarget(sample: MotionSample, t: TargetReading, f: Frame) returns (ok: bool)
      requires Valid()
      modifies this`effect
      ensures Valid() && effect.poses.Keys == old(effect.poses.Keys)
      ensures HoldsTargets(motionEffects, old(effect))
      ensures (ok, effect) == Moved(old(motionEffects), old(effect), sample.vel, lastVel, t, f)
    {
      ghost var s := effect;
      RetargetTilt(f);
      ApplyTilt(sample.vel, TickDeltaTime(f), t, f);
      ghost var tilted := effect;
      ok := DivideFramerate(f);
      MovedComposes(motionEffects, s, tilted, ok, effect, sample.vel, lastVel, t, f);
    }

    /** Cache this frame's motion for the next tick. */
    method CacheMotion(t: TargetReading, sample: MotionSample)
      modifies this`lastFwd, this`lastPos, this`lastSpeed, this`lastVel, this`lastRot
      ensures lastFwd == sample.fwd && lastPos == t.position && lastSpeed == sample.speed
      ensures lastVel == sample.vel && lastRot == t.rotation
    {
      lastFwd := sample.fwd;
      lastPos := t.position;
      lastSpeed := sample.speed;
      lastVel := sample.vel;
      lastRot := t.rotation;
    }

    /** The end of a tick: counter-rotation when switched on, then this frame's motion is cached. */
    method FinishTick(t: TargetReading, sample: MotionSample, e: Engine)
      modifies this`cmRot, this`lastFwd, this`lastPos, this`lastSpeed, this`lastVel, this`lastRot
      ensures lastFwd == sample.fwd && lastPos == t.position && lastSpeed == sample.speed
      ensures lastVel == sample.vel && lastRot == t.rotation
      ensures CounterRotated(t, e, old(Memory()))
    {
      if useCounterMotion {
        UpdateCounterMotion(e.mul(e.inverse(t.rotation), lastRot), e);
      }
      CacheMotion(t, sample);
    }

    /**
     * The part of a tick before its counter-motion: the motion is measured, then the
     * motion-effect target is moved; `ok` is false when framerate division dereferenced
     * a null motion-effect target.
     */
    method MeasureAndMove(t: TargetReading, f: Frame) returns (sample: MotionSample, ok: bool)
      requires Valid()
      modifies this`avSmoothed, this`avSlew, this`speedSmoothed, this`speedSlew, this`accelSmoothed, this`accelSlew
      modifies this`effect
      ensures Valid() && effect.poses.Keys == old(effect.poses.Keys)
      ensures ok <==> !DivisionFailsOn(motionEffects.motionEffectTarget, f.frameCount, old(effect.lastFpsDivision),
                                        motionEffects.framerateDivision, motionEffects.divideTranslation, motionEffects.divideRotation)
      ensures Sampled(t, f, old(Memory()), sample) && TargetMoved(old(motionEffects), effect, t, f, old(Memory()))
    {
      ghost var prev := Memory();
      sample := MeasureMotion(t, f);
      assert Sampled(t, f, prev, sample) && effect == prev.effect && lastVel == prev.lastVel;
      ok := MoveEffectTarget(sample, t, f);
      MovedFailsOnlyOnNullDivision(old(motionEffects), prev.effect, sample.vel, lastVel, t, f);
      assert Sampled(t, f, prev, sample);
    }

    /** The end of a completed tick: counter-motion and caching, then the strength for the sample. */
    method Conclude(t: TargetReading, sample: MotionSample, f: Frame, ghost prev: TickMemory) returns (r: MotionResult)
      requires Sampled(t, f, prev, sample)
      requires prev.lastRot == lastRot && prev.cmRot == cmRot
      modifies this`cmRot, this`lastFwd, this`lastPos, this`lastSpeed, this`lastVel, this`lastRot
      ensures r.Strength? && TickOutcome(t, f, prev, r) && CounterRotated(t, f.engine, prev)
    {
      FinishTick(t, sample, f.engine);
      var fx := if f.forcedValue.Some? then f.forcedValue.value else sample.channelSum;
      return Strength(EffectStrength(fx, effectCoverage));
    }

    /** A tick whose motion target is present: measure and move, then counter-motion, caching and the strength. */
    method TrackTarget(t: TargetReading, f: Frame) returns (r: MotionResult)
      requires Valid()
      modifies this`avSmoothed, this`avSlew, this`speedSmoothed, this`speedSlew, this`accelSmoothed, this`accelSlew
      modifies this`effect
      modifies this`cmRot, this`lastFwd, this`lastPos, this`lastSpeed, this`lastVel, this`lastRot
      ensures Valid() && effect.poses.Keys == old(effect.poses.Keys)
      ensures (r.Strength? <==> !DivisionFailsOn(motionEffects.motionEffectTarget, f.frameCount, old(effect.lastFpsDivision),
                                            motionEffects.framerateDivision, motionEffects.divideTranslation, motionEffects.divideRotation))
      ensures TickOutcome(t, f, old(Memory()), r) && TargetMoved(old(motionEffects), effect, t, f, old(Memory()))
      ensures r.Strength? ==> CounterRotated(t, f.engine, old(Memory()))
    {
      ghost var prev := Memory();
      var sample, ok := MeasureAndMove(t, f);
      if !ok {
        return NullReference;
      }
      r := Conclude(t, sample, f, prev);
    }

    /**
     * `CalculateMotion` with this component's own counter-motion: one tick's effect
     * strength. A null motion target aborts the tick before anything changes; a null
     * motion-effect target that framerate division needs aborts it part-way, after the
     * channels were smoothed (`Measured`). A completed tick returns `EffectStrength` of
     * the forced value or, without one, of the channels' sum at their new smoothed
     * values, and caches this frame's motion (`Cached`). The Transform writes are
     * `MoveEffectTarget`'s and the counter-rotation is `FinishTick`'s.
     */
    method CalculateMotion(f: Frame) returns (r: MotionResult)
      requires Valid()
      modifies this`avSmoothed, this`avSlew, this`speedSmoothed, this`speedSlew, this`accelSmoothed, this`accelSlew
      modifies this`effect
      modifies this`cmRot, this`lastFwd, this`lastPos, this`lastSpeed, this`lastVel, this`lastRot
      ensures Valid() && effect.poses.Keys == old(effect.poses.Keys)
      ensures f.target.None? ==> r == NullReference && unchanged(this)
      ensures f.target.Some? ==>
        (r.Strength? <==> !DivisionFailsOn(motionEffects.motionEffectTarget, f.frameCount, old(effect.lastFpsDivision),
                                            motionEffects.framerateDivision, motionEffects.divideTranslation, motionEffects.divideRotation))
      ensures f.target.Some? ==> Measured(f.target.value, f, old(Memory()))
      ensures r.Strength? ==>
        r.value == EffectStrength(if f.forcedValue.Some? then f.forcedValue.value else ChannelTotal(f.engine), effectCoverage)
      ensures r.Strength? ==> Cached(f.target.value, f, old(Memory()))
      ensures f.target.Some? ==> TargetMoved(old(motionEffects), effect, f.target.value, f, old(Memory()))
      ensures r.Strength? ==> CounterRotated(f.target.value, f.engine, old(Memory()))
    {
      if f.target.None? {
        return NullReference;
      }
      r := TrackTarget(f.target.value, f);
    }

    /** The motion part of `ResetMotion`: cache the target's pose and clear all smoothing. */
    method ResetMotionState(t: TargetReading)
      modifies this`lastFwd, this`lastPos, this`lastSpeed
      modifies this`avSmoothed, this`avSlew, this`speedSmoothed, this`speedSlew, this`accelSmoothed, this`accelSlew
      ensures lastFwd == t.forward && lastPos == t.position && lastSpeed == 0.0
      ensures avSmoothed == 0.0 && avSlew == 0.0 && speedSmoothed == 0.0 && speedSlew == 0.0
      ensures accelSmoothed == 0.0 && accelSlew == 0.0
    {
      lastFwd := t.forward;
      lastPos := t.position;
      lastSpeed := 0.0;
      avSmoothed, avSlew, speedSmoothed, speedSlew, accelSmoothed, accelSlew := 0.0, 0.0, 0.0, 0.0, 0.0, 0.0;
    }

    /** `ResetCounterMotion` (this component's part): no accumulated counter-rotation. */
    method ResetCounterMotion(t: TargetReading)
      modifies this`cmRot, this`lastRot
      ensures cmRot == IdentityQuat && lastRot == t.rotation
    {
      cmRot := IdentityQuat;
      lastRot := t.rotation;
    }

    /**
     * `ResetMotion` with this component's own counter-motion reset. Its first step reads
     * the motion target, so without one it throws before anything changes (`ok` is false).
     * Otherwise the new state depends on the target's pose only, so resetting twice is the
     * same as resetting once.
     */
    method ResetMotion(target: Option<TargetReading>) returns (ok: bool)
      modifies this`lastFwd, this`lastPos, this`lastSpeed
      modifies this`avSmoothed, this`avSlew, this`speedSmoothed, this`speedSlew, this`accelSmoothed, this`accelSlew
      modifies this`cmRot, this`lastRot
      ensures ok == target.Some?
      ensures !ok ==> unchanged(this)
      ensures ok ==> lastFwd == target.value.forward && lastPos == target.value.position && lastSpeed == 0.0
      ensures ok ==> avSmoothed == 0.0 && avSlew == 0.0 && speedSmoothed == 0.0 && speedSlew == 0.0
      ensures ok ==> accelSmoothed == 0.0 && accelSlew == 0.0
      ensures ok ==> cmRot == IdentityQuat && lastRot == target.value.rotation
      ensures ok ==> MotionReset(target.value)
    {
      if target.None? {
        return false;
      }
      ResetMotionState(target.value);
      ResetCounterMotion(target.value);
      ok := true;
    }

    /** `ApplyPresetBase`, first part: coverage, colour, feather, background colouring and skybox. */
    method ApplyLookSettings(p: PresetBase)
      modifies this`effectCoverage, this`effectColor, this`effectFeather, this`applyColorToBackground, this`effectSkybox
      ensures effectCoverage == if p.OverrideEffectCoverage() then p.effectCoverage else old(effectCoverage)
      ensures effectColor == if p.OverrideEffectColor() then p.effectColor else old(effectColor)
      ensures effectFeather == if p.OverrideEffectFeather() then p.effectFeather else old(effectFeather)
      ensures applyColorToBackground
        == if p.OverrideApplyColorToBackground() then p.applyColorToBackground else old(applyColorToBackground)
      ensures effectSkybox == if p.OverrideSkybox() then p.skybox else old(effectSkybox)
    {
      if p.OverrideEffectCoverage() { effectCoverage := p.effectCoverage; }
      if p.OverrideEffectColor() { effectColor := p.effectColor; }
      if p.OverrideEffectFeather() { effectFeather := p.effectFeather; }
      if p.OverrideApplyColorToBackground() { applyColorToBackground := p.applyColorToBackground; }
      if p.OverrideSkybox() { effectSkybox := p.skybox; }
    }

    /** `ApplyPresetBase`, second part: a motion channel's five settings travel together. */
    method ApplyChannelSettings(p: PresetBase)
      modifies this`angularVelocity, this`acceleration, this`velocity
      ensures angularVelocity == if p.OverrideAngularVelocity() then p.angularVelocity else old(angularVelocity)
      ensures acceleration == if p.OverrideAcceleration() then p.acceleration else old(acceleration)
      ensures velocity == if p.OverrideVelocity() then p.velocity else old(velocity)
    {
      if p.OverrideAngularVelocity() { angularVelocity := p.angularVelocity; }
      if p.OverrideAcceleration() { acceleration := p.acceleration; }
      if p.OverrideVelocity() { velocity := p.velocity; }
    }

    /** `ApplyPresetBase`, third part: counter-motion and tilt switches. */
    method ApplyCounterMotionSettings(m: MotionEffectsPreset)
      modifies this`useCounterMotion, this`counterRotationPerAxis, this`motionEffects
      ensures useCounterMotion == if m.overrideUseCounterMotion then m.useCounterMotion else old(useCounterMotion)
      ensures counterRotationPerAxis
        == if m.overrideCounterRotationPerAxis then m.counterRotationPerAxis else old(counterRotationPerAxis)
      ensures motionEffects == old(motionEffects).(useArtificialTilt :=
        if m.overrideUseArtificialTilt then m.useArtificialTilt else old(motionEffects.useArtificialTilt))
    {
      if m.overrideUseCounterMotion { useCounterMotion := m.useCounterMotion; }
      if m.overrideCounterRotationPerAxis { counterRotationPerAxis := m.counterRotationPerAxis; }
      if m.overrideUseArtificialTilt { motionEffects := motionEffects.(useArtificialTilt := m.useArtificialTilt); }
    }

    /** `ApplyPresetBase`, last part: framerate division. */
    method ApplyFramerateDivisionSettings(m: MotionEffectsPreset)
      modifies this`motionEffects
      ensures motionEffects == old(motionEffects).(
        framerateDivision := if m.overrideFramerateDivision then m.framerateDivision else old(motionEffects.framerateDivision),
        divideTranslation := if m.overrideDivideTranslation then m.divideTranslation else old(motionEffects.divideTranslation),
        divideRotation := if m.overrideDivideRotation then m.divideRotation else old(motionEffects.divideRotation))
    {
      if m.overrideFramerateDivision { motionEffects := motionEffects.(framerateDivision := m.framerateDivision); }
      if m.overrideDivideTranslation { motionEffects := motionEffects.(divideTranslation := m.divideTranslation); }
      if m.overrideDivideRotation { motionEffects := motionEffects.(divideRotation := m.divideRotation); }
    }

    /**
     * The configuration now holds every base-preset setting whose override getter is
     * true and keeps its previous value for every other one.
     */
    twostate predicate BaseSettingsApplied(p: PresetBase)
      reads this`effectCoverage, this`effectColor, this`effectFeather, this`applyColorToBackground, this`effectSkybox
      reads this`angularVelocity, this`acceleration, this`velocity
      reads this`useCounterMotion, this`counterRotationPerAxis, this`motionEffects
    {
      var m := p.motionEffects;
      effectCoverage == (if p.OverrideEffectCoverage() then p.effectCoverage else old(effectCoverage))
      && effectColor == (if p.OverrideEffectColor() then p.effectColor else old(effectColor))
      && effectFeather == (if p.OverrideEffectFeather() then p.effectFeather else old(effectFeather))
      && applyColorToBackground
         == (if p.OverrideApplyColorToBackground() then p.applyColorToBackground else old(applyColorToBackground))
      && effectSkybox == (if p.OverrideSkybox() then p.skybox else old(effectSkybox))
      && angularVelocity == (if p.OverrideAngularVelocity() then p.angularVelocity else old(angularVelocity))
      && acceleration == (if p.OverrideAcceleration() then p.acceleration else old(acceleration))
      && velocity == (if p.OverrideVelocity() then p.velocity else old(velocity))
      && useCounterMotion == (if m.overrideUseCounterMotion then m.useCounterMotion else old(useCounterMotion))
      && counterRotationPerAxis
         == (if m.overrideCounterRotationPerAxis then m.counterRotationPerAxis else old(counterRotationPerAxis))
      && motionEffects == old(motionEffects).(
           useArtificialTilt := if m.overrideUseArtificialTilt then m.useArtificialTilt else old(motionEffects.useArtificialTilt),
           framerateDivision := if m.overrideFramerateDivision then m.framerateDivision else old(motionEffects.framerateDivision),
           divideTranslation := if m.overrideDivideTranslation then m.divideTranslation else old(motionEffects.divideTranslation),
           divideRotation := if m.overrideDivideRotation then m.divideRotation else old(motionEffects.divideRotation))
    }

    /**
     * `ApplyPresetBase`: every setting whose override getter is true is copied from the
     * preset, a motion channel's five settings together, and every other setting keeps
     * its value. Settings without an override (counter-rotation strength, tilt strength,
     * limits and smoothing) and the motion state are outside the frame.
     */
    method ApplyPresetBase(p: PresetBase)
      modifies this`effectCoverage, this`effectColor, this`effectFeather, this`applyColorToBackground, this`effectSkybox
      modifies this`angularVelocity, this`acceleration, this`velocity
      modifies this`useCounterMotion, this`counterRotationPerAxis, this`motionEffects
      ensures effectCoverage == (if p.OverrideEffectCoverage() then p.effectCoverage else old(effectCoverage))
      ensures effectColor == (if p.OverrideEffectColor() then p.effectColor else old(effectColor))
      ensures effectFeather == (if p.OverrideEffectFeather() then p.effectFeather else old(effectFeather))
      ensures applyColorToBackground
         == (if p.OverrideApplyColorToBackground() then p.applyColorToBackground else old(applyColorToBackground))
      ensures effectSkybox == (if p.OverrideSkybox() then p.skybox else old(effectSkybox))
      ensures angularVelocity == (if p.OverrideAngularVelocity() then p.angularVelocity else old(angularVelocity))
      ensures acceleration == (if p.OverrideAcceleration() then p.acceleration else old(acceleration))
      ensures velocity == (if p.OverrideVelocity() then p.velocity else old(velocity))
      ensures useCounterMotion == (if p.motionEffects.overrideUseCounterMotion then p.motionEffects.useCounterMotion else old(useCounterMotion))
      ensures counterRotationPerAxis
         == (if p.motionEffects.overrideCounterRotationPerAxis then p.motionEffects.counterRotationPerAxis else old(counterRotationPerAxis))
      ensures var m := p.motionEffects;
        motionEffects == old(motionEffects).(
          useArtificialTilt := if m.overrideUseArtificialTilt then m.useArtificialTilt else old(motionEffects.useArtificialTilt),
          framerateDivision := if m.overrideFramerateDivision then m.framerateDivision else old(motionEffects.framerateDivision),
          divideTranslation := if m.overrideDivideTranslation then m.divideTranslation else old(motionEffects.divideTranslation),
          divideRotation := if m.overrideDivideRotation then m.divideRotation else old(motionEffects.divideRotation))
      ensures BaseSettingsApplied(p)
    {
      ApplyLookSettings(p);
      ApplyChannelSettings(p);
      ApplyCounterMotionSettings(p.motionEffects);
      ApplyFramerateDivisionSettings(p.motionEffects);
    }

    /** With `overrideAll` on, applying a base preset takes every one of its base settings. */
    twostate lemma OverrideAllTakesEveryBaseSetting(p: PresetBase)
      requires BaseSettingsApplied(p) && p.overrideAll
      ensures effectCoverage == p.effectCoverage && effectColor == p.effectColor && effectFeather == p.effectFeather
      ensures applyColorToBackground == p.applyColorToBackground && effectSkybox == p.skybox
      ensures angularVelocity == p.angularVelocity && acceleration == p.acceleration && velocity == p.velocity
    {
      OverrideAllForcesBaseOverrides(p);
    }
  }
}
