/**
 * Value types and the small engine helpers the vignette relies on.
 *
 * Floats are modelled as reals (no rounding, no NaN). The few Mathf helpers whose
 * behaviour is fixed by the engine's documentation (Clamp, Clamp01, Lerp, InverseLerp,
 * Sign, Max, Abs) are written out; everything else the engine computes natively is a
 * field of the `Engine` record below and stays opaque.
 */
module UnityMath {

  datatype Option<+T> = None | Some(value: T)

  /** Identity of a scene object or asset (a Transform, a Renderer, a Cubemap); `None` stands for null. */
  type ObjectId = nat

  datatype Vec2 = Vec2(x: real, y: real) {
    function SqrMagnitude(): real { x * x + y * y }
  }

  datatype Vec3 = Vec3(x: real, y: real, z: real) {
    function Plus(o: Vec3): Vec3 { Vec3(x + o.x, y + o.y, z + o.z) }
    function Minus(o: Vec3): Vec3 { Vec3(x - o.x, y - o.y, z - o.z) }
    function Times(k: real): Vec3 { Vec3(x * k, y * k, z * k) }
    function DividedBy(k: real): Vec3 requires k != 0.0 { Vec3(x / k, y / k, z / k) }
    /** Componentwise product (`Vector3.Scale`). */
    function Scaled(o: Vec3): Vec3 { Vec3(x * o.x, y * o.y, z * o.z) }
    function Negated(): Vec3 { Vec3(-x, -y, -z) }
    function SqrMagnitude(): real { x * x + y * y + z * z }
    /** Indexer `v[i]`. */
    function Get(i: nat): real requires i < 3 { if i == 0 then x else if i == 1 then y else z }
    /** Indexed store `v[i] = a`. */
    function With(i: nat, a: real): Vec3 requires i < 3 {
      if i == 0 then Vec3(a, y, z) else if i == 1 then Vec3(x, a, z) else Vec3(x, y, a)
    }
  }

  const Zero3 := Vec3(0.0, 0.0, 0.0)
  const One3 := Vec3(1.0, 1.0, 1.0)

  datatype Vec4 = Vec4(x: real, y: real, z: real, w: real)

  /** Quaternion in the engine's (x, y, z, w) layout; its product is the engine's (`Engine.mul`). */
  datatype Quat = Quat(x: real, y: real, z: real, w: real)

  const IdentityQuat := Quat(0.0, 0.0, 0.0, 1.0)

  datatype Color = Color(r: real, g: real, b: real, a: real)

  const Black := Color(0.0, 0.0, 0.0, 1.0)
  const White := Color(1.0, 1.0, 1.0, 1.0)

  /** `Mathf.Clamp`: the lower bound wins when the bounds are crossed. */
  function Clamp(v: real, lo: real, hi: real): (r: real)
    ensures lo <= hi ==> lo <= r <= hi
    ensures lo <= v <= hi ==> r == v
  {
    if v < lo then lo else if v > hi then hi else v
  }

  /** `Mathf.Clamp01`. */
  function Clamp01(v: real): (r: real)
    ensures 0.0 <= r <= 1.0
    ensures 0.0 <= v <= 1.0 ==> r == v
    ensures v <= 0.0 ==> r == 0.0
    ensures v >= 1.0 ==> r == 1.0
  {
    Clamp(v, 0.0, 1.0)
  }

  /** `Mathf.Lerp`: interpolation whose parameter is clamped to [0, 1]. */
  function Lerp(a: real, b: real, t: real): (r: real)
    ensures a <= b ==> a <= r <= b
    ensures t <= 0.0 ==> r == a
    ensures t >= 1.0 ==> r == b
  {
    var d, u := b - a, Clamp01(t);
    ScaleWithinRange(d, u);
    a + d * u
  }

  lemma ScaleWithinRange(d: real, u: real)
    requires 0.0 <= u <= 1.0
    ensures 0.0 <= d ==> 0.0 <= d * u <= d
  {
    if 0.0 <= d {
      assert d * u <= d * 1.0;
    }
  }

  lemma QuotientAtLeastOne(n: real, d: real)
    requires 0.0 < d <= n
    ensures n / d >= 1.0
  {
    assert n / d * d == n;
  }

  lemma QuotientNotPositive(n: real, d: real)
    requires 0.0 < d && n <= 0.0
    ensures n / d <= 0.0
  {
    assert n / d * d == n;
  }

  /** `Mathf.InverseLerp`: where `v` lies between `a` and `b`, clamped; 0 when `a == b`. */
  function InverseLerp(a: real, b: real, v: real): (r: real)
    ensures 0.0 <= r <= 1.0
    ensures a == b ==> r == 0.0
    ensures a < b && v <= a ==> r == 0.0
    ensures a < b && v >= b ==> r == 1.0
  {
    if a != b then
      (if a < b && v >= b then QuotientAtLeastOne(v - a, b - a); Clamp01((v - a) / (b - a))
       else if a < b && v <= a then QuotientNotPositive(v - a, b - a); Clamp01((v - a) / (b - a))
       else Clamp01((v - a) / (b - a)))
    else 0.0
  }

  /** `Mathf.Sign`: 1 for zero and positive values, -1 otherwise. */
  function Sign(f: real): real { if f >= 0.0 then 1.0 else -1.0 }

  function Abs(f: real): real { if f < 0.0 then -f else f }

  function Max(a: real, b: real): real { if a >= b then a else b }

  /**
   * Engine primitives that the source calls but whose code is not part of this model.
   * Every lemma about the model holds for every choice of them, except where a lemma
   * names one of the small soundness predicates below.
   */
  datatype Engine = Engine(
    /** `Mathf.SmoothDamp(current, target, ref velocity, smoothTime)`, driven by the frame's delta time:
        (current, target, velocity, smoothTime, deltaTime) -> (value, new velocity). */
    smoothDamp: (real, real, real, real, real) -> (real, real),
    /** `Vector3.SmoothDamp(current, target, ref velocity, smoothTime, maxSpeed, deltaTime)`. */
    smoothDampVector: (Vec3, Vec3, Vec3, real, real, real) -> (Vec3, Vec3),
    /** `Vector3.Angle`, in degrees. */
    angleBetween: (Vec3, Vec3) -> real,
    /** `Vector3.magnitude`. */
    magnitude: Vec3 -> real,
    /** `Mathf.Log`, the natural logarithm. */
    ln: real -> real,
    /** `Mathf.Approximately`. */
    approximately: (real, real) -> bool,
    /** `Quaternion.eulerAngles`. */
    eulerAngles: Quat -> Vec3,
    /** `Quaternion.Euler`. */
    euler: Vec3 -> Quat,
    /** `Quaternion * Quaternion`: the rotation `b` followed, in `a`'s frame, by `a`. */
    mul: (Quat, Quat) -> Quat,
    /** `Quaternion.Inverse`. */
    inverse: Quat -> Quat,
    /** `RenderTexture.texelSize` of a texture of the given width and height. */
    texelSize: (int, int) -> Vec2
  )

  /** The natural logarithm is 0 at 1 and grows no faster than its argument. */
  ghost predicate LnBounded(e: Engine) {
    forall y: real {:trigger e.ln(y)} :: 1.0 <= y ==> 0.0 <= e.ln(y) <= y - 1.0
  }

  /**
   * `Mathf.Approximately` through the engine: its tolerance is opaque, but every value
   * is approximately equal to itself.
   */
  predicate Approximately(e: Engine, a: real, b: real) {
    a == b || e.approximately(a, b)
  }
}
