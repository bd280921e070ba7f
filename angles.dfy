/**
 * Angle canonicalisation: the `Angle` and `Angle3` value types.
 *
 * Every value is folded into one of three ranges: [0, 360) ("angle"), (-180, 180]
 * ("acute") or [-360, -180) + [180, 360) ("reflex"). An `Angle` always stores the
 * [0, 360) form, so its arithmetic re-normalises and its comparisons are on canonical
 * values. `ToAngle` is characterised independently of its code: its result is the
 * unique value of the requested range that differs from the input by whole turns.
 */
module Angles {
  import opened UnityMath

  datatype AngleType = ANGLE | ACUTE | REFLEX

  /** `d` is a whole number of turns (a multiple of 360 degrees). */
  predicate WholeTurns(d: real) {
    (d / 360.0).Floor as real == d / 360.0
  }

  /** The canonical range of each angle type. */
  predicate InRange(a: real, t: AngleType) {
    match t
    case ANGLE => 0.0 <= a < 360.0
    case ACUTE => -180.0 < a <= 180.0
    case REFLEX => -360.0 <= a < -180.0 || 180.0 <= a < 360.0
  }

  /** `Mathf.Repeat(t, 360)`. */
  function Repeat360(t: real): (r: real)
    ensures 0.0 <= r < 360.0
    ensures WholeTurns(t - r)
  {
    var n := (t / 360.0).Floor;
    assert (t - (t - n as real * 360.0)) / 360.0 == n as real;
    Clamp(t - n as real * 360.0, 0.0, 360.0)
  }

  /** `Angle.ToAngle`: the value of range `t` that differs from `a` by whole turns. */
  function ToAngle(a: real, t: AngleType): (r: real)
    ensures InRange(r, t)
    ensures WholeTurns(a - r)
  {
    var w := Repeat360(a);
    match t
    case ANGLE => w
    case ACUTE => if w > 180.0 then OneMoreTurn(a - w); w - 360.0 else w
    case REFLEX => if w < 180.0 then OneMoreTurn(a - w); w - 360.0 else w
  }

  lemma OneMoreTurn(d: real)
    requires WholeTurns(d)
    ensures WholeTurns(d + 360.0)
  {
    var n := (d / 360.0).Floor;
    assert (d + 360.0) / 360.0 == (n + 1) as real;
  }

  lemma WholeTurnsNegated(d: real)
    requires WholeTurns(d)
    ensures WholeTurns(-d)
  {
    assert (0.0 / 360.0).Floor as real == 0.0 / 360.0;
    WholeTurnsDifference(0.0, d);
    assert 0.0 - d == -d;
  }

  lemma WholeTurnsDifference(d1: real, d2: real)
    requires WholeTurns(d1) && WholeTurns(d2)
    ensures WholeTurns(d1 - d2)
  {
    var n1, n2 := (d1 / 360.0).Floor, (d2 / 360.0).Floor;
    var q := (d1 - d2) / 360.0;
    assert q == d1 / 360.0 - d2 / 360.0;
    assert q == (n1 - n2) as real;
  }

  /** Two values of one range that differ by whole turns are equal. */
  lemma CanonicalUnique(r1: real, r2: real, t: AngleType)
    requires InRange(r1, t) && InRange(r2, t) && WholeTurns(r1 - r2)
    ensures r1 == r2
  {
    var n := ((r1 - r2) / 360.0).Floor;
    assert r1 - r2 == n as real * 360.0;
  }

  /** Reference definition: any value of range `t` congruent to `a` is `ToAngle(a, t)`. */
  lemma ToAngleIsTheCanonicalValue(a: real, t: AngleType, r: real)
    requires InRange(r, t) && WholeTurns(a - r)
    ensures ToAngle(a, t) == r
  {
    var c := ToAngle(a, t);
    WholeTurnsDifference(a - r, a - c);
    assert (a - r) - (a - c) == c - r;
    CanonicalUnique(c, r, t);
  }

  /** Canonicalising first, in any form, does not change the result. */
  lemma ToAngleAbsorbs(a: real, s: AngleType, t: AngleType)
    ensures ToAngle(ToAngle(a, s), t) == ToAngle(a, t)
  {
    var inner, outer := ToAngle(a, s), ToAngle(a, t);
    WholeTurnsDifference(a - outer, a - inner);
    assert (a - outer) - (a - inner) == inner - outer;
    ToAngleIsTheCanonicalValue(inner, t, outer);
  }

  /** The case that the engine's callers rely on: re-normalising an `Angle`'s stored value. */
  lemma ToAngleIdempotent(a: real, t: AngleType)
    ensures ToAngle(ToAngle(a, AngleType.ANGLE), t) == ToAngle(a, t)
    ensures ToAngle(ToAngle(a, t), t) == ToAngle(a, t)
  {
    ToAngleAbsorbs(a, AngleType.ANGLE, t);
    ToAngleAbsorbs(a, t, t);
  }

  /** A value already in range is its own canonical form. */
  lemma ToAngleFixesCanonical(a: real, t: AngleType)
    requires InRange(a, t)
    ensures ToAngle(a, t) == a
  {
    assert (a - a) / 360.0 == 0 as real;
    ToAngleIsTheCanonicalValue(a, t, a);
  }

  /** Adding whole turns does not change the canonical form. */
  lemma ToAngleIgnoresWholeTurns(a: real, k: int, t: AngleType)
    ensures ToAngle(a + 360.0 * k as real, t) == ToAngle(a, t)
  {
    var r := ToAngle(a, t);
    WholeTurnsShifted(a - r, k);
    assert a + 360.0 * k as real - r == (a - r) + 360.0 * k as real;
    ToAngleIsTheCanonicalValue(a + 360.0 * k as real, t, r);
  }

  lemma WholeTurnsShifted(d: real, k: int)
    requires WholeTurns(d)
    ensures WholeTurns(d + 360.0 * k as real)
  {
    var n := (d / 360.0).Floor;
    var q := (d + 360.0 * k as real) / 360.0;
    assert q == d / 360.0 + k as real;
    assert q == (n + k) as real;
  }

  /** The values the code produces for the inputs its documentation uses as examples. */
  lemma DocumentedInputs()
    ensures ToAngle(-10.0, AngleType.ANGLE) == 350.0 && ToAngle(10.0, AngleType.ANGLE) == 10.0
    ensures ToAngle(580.0, AngleType.ANGLE) == 220.0
    ensures ToAngle(-10.0, AngleType.ACUTE) == -10.0 && ToAngle(10.0, AngleType.ACUTE) == 10.0
    ensures ToAngle(580.0, AngleType.ACUTE) == -140.0
    ensures ToAngle(-10.0, AngleType.REFLEX) == 350.0 && ToAngle(10.0, AngleType.REFLEX) == -350.0
    ensures ToAngle(580.0, AngleType.REFLEX) == 220.0
  {
    assert (-10.0 - 350.0) / 360.0 == -1 as real;
    ToAngleIsTheCanonicalValue(-10.0, AngleType.ANGLE, 350.0);
    ToAngleIsTheCanonicalValue(-10.0, AngleType.REFLEX, 350.0);
    ToAngleFixesCanonical(10.0, AngleType.ANGLE);
    ToAngleFixesCanonical(-10.0, AngleType.ACUTE);
    ToAngleFixesCanonical(10.0, AngleType.ACUTE);
    assert (10.0 - -350.0) / 360.0 == 1 as real;
    ToAngleIsTheCanonicalValue(10.0, AngleType.REFLEX, -350.0);
    assert (580.0 - 220.0) / 360.0 == 1 as real;
    ToAngleIsTheCanonicalValue(580.0, AngleType.ANGLE, 220.0);
    ToAngleIsTheCanonicalValue(580.0, AngleType.REFLEX, 220.0);
    assert (580.0 - -140.0) / 360.0 == 2 as real;
    ToAngleIsTheCanonicalValue(580.0, AngleType.ACUTE, -140.0);
  }

  /** The stored representation of an `Angle`. */
  datatype AngleRep = AngleRep(angle: real)

  /** `Angle`: its stored value is always in [0, 360). */
  type Angle = a: AngleRep | 0.0 <= a.angle < 360.0 witness AngleRep(0.0)

  /** The constructor `Angle(float)` and the implicit conversion from float. */
  function FromFloat(a: real): (r: Angle)
    ensures WholeTurns(a - r.angle)
  {
    AngleRep(ToAngle(a, AngleType.ANGLE))
  }

  /** `Angle.ToFloat(type)`; `acute` and `reflex` are its ACUTE and REFLEX cases. */
  function ToFloat(a: Angle, t: AngleType): (r: real)
    ensures InRange(r, t) && WholeTurns(a.angle - r)
  {
    ToAngle(a.angle, t)
  }

  function Acute(a: Angle): real { ToFloat(a, AngleType.ACUTE) }

  function Reflex(a: Angle): real { ToFloat(a, AngleType.REFLEX) }

  function Add(a: Angle, b: Angle): Angle { FromFloat(a.angle + b.angle) }

  function Sub(a: Angle, b: Angle): Angle { FromFloat(a.angle - b.angle) }

  /** `Angle * float`. */
  function Mul(a: Angle, f: real): Angle { FromFloat(a.angle * f) }

  /** `Angle / float`. */
  function Div(a: Angle, f: real): Angle requires f != 0.0 { FromFloat(a.angle / f) }

  /** `Angle + float`, `Angle - float`, `float + Angle`, `float - Angle`: the float is converted first. */
  function AddFloat(a: Angle, f: real): Angle { Add(a, FromFloat(f)) }

  function SubFloat(a: Angle, f: real): Angle { Sub(a, FromFloat(f)) }

  function FloatAdd(f: real, b: Angle): Angle { Add(FromFloat(f), b) }

  function FloatSub(f: real, b: Angle): Angle { Sub(FromFloat(f), b) }

  /** Comparisons between angles use the stored values. */
  predicate Less(a: Angle, b: Angle) { a.angle < b.angle }

  predicate AtMost(a: Angle, b: Angle) { a.angle <= b.angle }

  predicate Equal(a: Angle, b: Angle) { a.angle == b.angle }

  /** Comparisons with a float canonicalise the float first (`Angle < float`, `float < Angle`, ...). */
  predicate LessFloat(a: Angle, f: real) { a.angle < ToAngle(f, AngleType.ANGLE) }

  predicate AtMostFloat(a: Angle, f: real) { a.angle <= ToAngle(f, AngleType.ANGLE) }

  predicate FloatLess(f: real, b: Angle) { ToAngle(f, AngleType.ANGLE) < b.angle }

  predicate FloatAtMost(f: real, b: Angle) { ToAngle(f, AngleType.ANGLE) <= b.angle }

  /**
   * The float-first comparisons as written (`float < Angle` and its three siblings): the
   * body compares the canonicalised float with the angle, which resolves to the same
   * float-first operator again. Each call therefore makes one more call with a value
   * already in [0, 360) and never returns; `depth` bounds the unfolding, and `None`
   * stands for running out of it.
   */
  function FloatLessAsWritten(f: real, b: Angle, depth: nat): (r: Option<bool>)
    ensures r == None
    decreases depth
  {
    if depth == 0 then None else FloatLessAsWritten(ToAngle(f, AngleType.ANGLE), b, depth - 1)
  }

  /** The intended float-first comparisons agree with comparing the converted angle. */
  lemma FloatComparisonsMatchAngleComparisons(f: real, b: Angle)
    ensures FloatLess(f, b) == Less(FromFloat(f), b)
    ensures FloatAtMost(f, b) == AtMost(FromFloat(f), b)
    ensures LessFloat(b, f) == Less(b, FromFloat(f))
    ensures AtMostFloat(b, f) == AtMost(b, FromFloat(f))
  {
  }

  /** Two floats make equal angles exactly when they differ by whole turns. */
  lemma EqualIffWholeTurnsApart(x: real, y: real)
    ensures Equal(FromFloat(x), FromFloat(y)) <==> WholeTurns(x - y)
  {
    var rx, ry := FromFloat(x).angle, FromFloat(y).angle;
    if rx == ry {
      WholeTurnsDifference(x - rx, y - ry);
      assert (x - rx) - (y - ry) == x - y;
    }
    if WholeTurns(x - y) {
      WholeTurnsNegated(y - ry);
      assert -(y - ry) == ry - y;
      WholeTurnsDifference(x - y, ry - y);
      assert (x - y) - (ry - y) == x - ry;
      ToAngleIsTheCanonicalValue(x, AngleType.ANGLE, ry);
    }
  }

  /** Arithmetic with a float gives the same angle as arithmetic on the raw values. */
  lemma FloatOperandsNormaliseOnce(a: Angle, f: real)
    ensures AddFloat(a, f) == FromFloat(a.angle + f)
    ensures SubFloat(a, f) == FromFloat(a.angle - f)
    ensures FloatAdd(f, a) == FromFloat(f + a.angle)
    ensures FloatSub(f, a) == FromFloat(f - a.angle)
  {
    var c := FromFloat(f).angle;
    var n := ((f - c) / 360.0).Floor;
    ToAngleIgnoresWholeTurns(a.angle + c, n, AngleType.ANGLE);
    assert a.angle + c + 360.0 * n as real == a.angle + f;
    ToAngleIgnoresWholeTurns(a.angle - f, n, AngleType.ANGLE);
    assert a.angle - f + 360.0 * n as real == a.angle - c;
    ToAngleIgnoresWholeTurns(f - a.angle, -n, AngleType.ANGLE);
    assert f - a.angle + 360.0 * (-n) as real == c - a.angle;
  }

  /** Whole turns added to a float operand change no comparison with an angle. */
  lemma ComparisonsIgnoreWholeTurns(a: Angle, f: real, k: int)
    ensures LessFloat(a, f + 360.0 * k as real) == LessFloat(a, f)
    ensures AtMostFloat(a, f + 360.0 * k as real) == AtMostFloat(a, f)
    ensures FloatLess(f + 360.0 * k as real, a) == FloatLess(f, a)
    ensures FloatAtMost(f + 360.0 * k as real, a) == FloatAtMost(f, a)
  {
    ToAngleIgnoresWholeTurns(f, k, AngleType.ANGLE);
  }

  /** `Angle3`: three angles, one per Euler axis. */
  datatype Angle3 = Angle3(x: Angle, y: Angle, z: Angle) {
    /** `eulerAngles`: the stored [0, 360) values. */
    function EulerAngles(): Vec3 { Vec3(x.angle, y.angle, z.angle) }
    /** `eulerAcute`. */
    function EulerAcute(): Vec3 { Vec3(Acute(x), Acute(y), Acute(z)) }
    /** `eulerReflex`. */
    function EulerReflex(): Vec3 { Vec3(Reflex(x), Reflex(y), Reflex(z)) }
    /** `ToEuler(type)`. */
    function ToEuler(t: AngleType): Vec3 { Vec3(ToFloat(x, t), ToFloat(y, t), ToFloat(z, t)) }
  }

  /** The constructors `Angle3(float, float, float)`, `Angle3(Vector3)` and the implicit conversion. */
  function Angle3Of(v: Vec3): Angle3 {
    Angle3(FromFloat(v.x), FromFloat(v.y), FromFloat(v.z))
  }

  function Plus3(a: Angle3, b: Angle3): Angle3 { Angle3(Add(a.x, b.x), Add(a.y, b.y), Add(a.z, b.z)) }

  function Minus3(a: Angle3, b: Angle3): Angle3 { Angle3(Sub(a.x, b.x), Sub(a.y, b.y), Sub(a.z, b.z)) }

  function Times3(a: Angle3, f: real): Angle3 { Angle3(Mul(a.x, f), Mul(a.y, f), Mul(a.z, f)) }

  /** Converting a vector and reading it back in any form canonicalises each component alone. */
  lemma Angle3OfReadsBackComponentwise(v: Vec3, t: AngleType)
    ensures Angle3Of(v).ToEuler(t) == Vec3(ToAngle(v.x, t), ToAngle(v.y, t), ToAngle(v.z, t))
    ensures t == AngleType.ACUTE ==> Angle3Of(v).EulerAcute() == Angle3Of(v).ToEuler(t)
  {
    ToAngleIdempotent(v.x, t);
    ToAngleIdempotent(v.y, t);
    ToAngleIdempotent(v.z, t);
  }

  /** Two vectors make equal `Angle3`s exactly when every component pair is whole turns apart. */
  lemma Angle3EqualIffComponentsWholeTurnsApart(u: Vec3, v: Vec3)
    ensures Angle3Of(u) == Angle3Of(v) <==> WholeTurns(u.x - v.x) && WholeTurns(u.y - v.y) && WholeTurns(u.z - v.z)
  {
    EqualIffWholeTurnsApart(u.x, v.x);
    EqualIffWholeTurnsApart(u.y, v.y);
    EqualIffWholeTurnsApart(u.z, v.z);
  }

  /** Adding two `Angle3`s and reading the result equals adding the raw components. */
  lemma Plus3IsComponentwise(a: Angle3, b: Angle3, t: AngleType)
    ensures Plus3(a, b).ToEuler(t)
         == Vec3(ToAngle(a.x.angle + b.x.angle, t), ToAngle(a.y.angle + b.y.angle, t), ToAngle(a.z.angle + b.z.angle, t))
  {
    ToAngleIdempotent(a.x.angle + b.x.angle, t);
    ToAngleIdempotent(a.y.angle + b.y.angle, t);
    ToAngleIdempotent(a.z.angle + b.z.angle, t);
  }

  /** The zero rotation, as `Angle3Of(Zero3)` builds it. */
  const NoRotation: Angle3 := Angle3(AngleRep(0.0), AngleRep(0.0), AngleRep(0.0))

  lemma Angle3OfZero()
    ensures Angle3Of(Zero3) == NoRotation
  {
    ToAngleFixesCanonical(0.0, AngleType.ANGLE);
  }

  /** Offsetting an `Angle3` by raw Euler angles and reading it back acute is one canonicalisation per axis. */
  lemma OffsetReadsBackAcute(a: Angle3, v: Vec3)
    ensures Plus3(a, Angle3Of(v)).EulerAcute()
         == Vec3(ToAngle(a.x.angle + v.x, AngleType.ACUTE), ToAngle(a.y.angle + v.y, AngleType.ACUTE),
                 ToAngle(a.z.angle + v.z, AngleType.ACUTE))
  {
    FloatOperandsNormaliseOnce(a.x, v.x);
    FloatOperandsNormaliseOnce(a.y, v.y);
    FloatOperandsNormaliseOnce(a.z, v.z);
    ToAngleIdempotent(a.x.angle + v.x, AngleType.ACUTE);
    ToAngleIdempotent(a.y.angle + v.y, AngleType.ACUTE);
    ToAngleIdempotent(a.z.angle + v.z, AngleType.ACUTE);
  }
}
