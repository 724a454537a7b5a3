/**
 * The part of gl-matrix the core uses, over real numbers.
 *
 * vec3 arithmetic, dot and cross products, quat.mul and vec3.transformQuat are
 * polynomial and are written out. Square roots, trigonometry and the quaternion
 * routines built on them (quat.rotateY, quat.setAxes, quat.slerp) are host
 * functions supplied in a `MathLib`; only sqrt, cos and sin are constrained.
 */
module Vectors {

  datatype Vec3 = Vec3(x: real, y: real, z: real)

  /** A quaternion in gl-matrix's (x, y, z, w) layout. */
  datatype Quat = Quat(x: real, y: real, z: real, w: real)

  const Zero := Vec3(0.0, 0.0, 0.0)

  /** `quat.create()`: the identity rotation. */
  const Identity := Quat(0.0, 0.0, 0.0, 1.0)

  function Add(a: Vec3, b: Vec3): Vec3 { Vec3(a.x + b.x, a.y + b.y, a.z + b.z) }

  /** `vec3.sub(out, a, b)`: a - b. */
  function Sub(a: Vec3, b: Vec3): Vec3 { Vec3(a.x - b.x, a.y - b.y, a.z - b.z) }

  function Scale(a: Vec3, k: real): Vec3 { Vec3(a.x * k, a.y * k, a.z * k) }

  function Dot(a: Vec3, b: Vec3): real { a.x * b.x + a.y * b.y + a.z * b.z }

  function Cross(a: Vec3, b: Vec3): Vec3 {
    Vec3(a.y * b.z - a.z * b.y, a.z * b.x - a.x * b.z, a.x * b.y - a.y * b.x)
  }

  function LengthSq(a: Vec3): real { Dot(a, a) }

  function DistSq(a: Vec3, b: Vec3): real { LengthSq(Sub(a, b)) }

  /** Squared distance in the x/z plane (the y coordinates are ignored). */
  function HorizontalDistSq(a: Vec3, b: Vec3): real {
    (a.x - b.x) * (a.x - b.x) + (a.z - b.z) * (a.z - b.z)
  }

  /** `quat.mul(out, a, b)`. */
  function QuatMul(a: Quat, b: Quat): Quat {
    Quat(a.x * b.w + a.w * b.x + a.y * b.z - a.z * b.y,
         a.y * b.w + a.w * b.y + a.z * b.x - a.x * b.z,
         a.z * b.w + a.w * b.z + a.x * b.y - a.y * b.x,
         a.w * b.w - a.x * b.x - a.y * b.y - a.z * b.z)
  }

  /** `vec3.transformQuat(out, a, q)`. */
  function TransformQuat(a: Vec3, q: Quat): Vec3 {
    var ix := q.w * a.x + q.y * a.z - q.z * a.y;
    var iy := q.w * a.y + q.z * a.x - q.x * a.z;
    var iz := q.w * a.z + q.x * a.y - q.y * a.x;
    var iw := -q.x * a.x - q.y * a.y - q.z * a.z;
    Vec3(ix * q.w + iw * -q.x + iy * -q.z - iz * -q.y,
         iy * q.w + iw * -q.y + iz * -q.x - ix * -q.z,
         iz * q.w + iw * -q.z + ix * -q.y - iy * -q.x)
  }

  lemma DotCrossLeft(a: Vec3, b: Vec3)
    ensures Dot(Cross(a, b), a) == 0.0
  {}

  lemma DotCrossRight(a: Vec3, b: Vec3)
    ensures Dot(Cross(a, b), b) == 0.0
  {}

  lemma CrossScale(a: Vec3, b: Vec3, k: real, m: real)
    ensures Cross(Scale(a, k), Scale(b, m)) == Scale(Cross(a, b), k * m)
  {
    var l, r := Cross(Scale(a, k), Scale(b, m)), Scale(Cross(a, b), k * m);
    assert l.x == (a.y * b.z - a.z * b.y) * (k * m) == r.x;
    assert l.y == (a.z * b.x - a.x * b.z) * (k * m) == r.y;
    assert l.z == (a.x * b.y - a.y * b.x) * (k * m) == r.z;
  }

  lemma DotScale(a: Vec3, k: real, b: Vec3)
    ensures Dot(Scale(a, k), b) == k * Dot(a, b)
  {}

  lemma {:induction false} LengthSqScale(a: Vec3, k: real)
    ensures LengthSq(Scale(a, k)) == k * k * LengthSq(a)
  {
    calc {
      LengthSq(Scale(a, k));
      (a.x * k) * (a.x * k) + (a.y * k) * (a.y * k) + (a.z * k) * (a.z * k);
      k * k * (a.x * a.x + a.y * a.y + a.z * a.z);
    }
  }

  lemma SquarePositive(r: real)
    ensures r * r >= 0.0
    ensures r != 0.0 ==> r * r > 0.0
  {}

  lemma LengthSqNonNegative(a: Vec3)
    ensures LengthSq(a) >= 0.0
  {}

  /** 2(a·b) <= |a|² + |b|² and -2(a·b) <= |a|² + |b|², from |a - b|² >= 0 and |a + b|² >= 0. */
  lemma DotBound(a: Vec3, b: Vec3)
    ensures 2.0 * Dot(a, b) <= LengthSq(a) + LengthSq(b)
    ensures -2.0 * Dot(a, b) <= LengthSq(a) + LengthSq(b)
  {
    LengthSqNonNegative(Sub(a, b));
    LengthSqNonNegative(Add(a, b));
  }

  /**
   * Host functions the core calls but whose results are not modelled exactly.
   * `rotateY(q, rad)` is quat.rotateY, `setAxes(view, right, up)` is quat.setAxes
   * (returning the new rotation) and `slerp(a, b, t)` is quat.slerp.
   */
  datatype MathLib = MathLib(
    sqrt: real -> real,
    cos: real -> real,
    sin: real -> real,
    rotateY: (Quat, real) -> Quat,
    setAxes: (Vec3, Vec3, Vec3) -> Quat,
    slerp: (Quat, Quat, real) -> Quat)
  {
    /** sqrt is the non-negative square root and (cos t, sin t) lies on the unit circle. */
    ghost predicate Valid() {
      && (forall r :: 0.0 <= r ==> 0.0 <= sqrt(r) && sqrt(r) * sqrt(r) == r)
      && (forall t :: cos(t) * cos(t) + sin(t) * sin(t) == 1.0)
    }

    /** `vec3.length`. */
    function Length(a: Vec3): real { sqrt(LengthSq(a)) }

    /** `vec3.distance`. */
    function Distance(a: Vec3, b: Vec3): real { sqrt(DistSq(a, b)) }

    /**
     * The factor `vec3.normalize` multiplies by: 1/|a|, or 0 for the zero vector.
     * (The test on sqrt's result only matters for an invalid sqrt.)
     */
    function InvLength(a: Vec3): real {
      var len := LengthSq(a);
      if len > 0.0 && sqrt(len) > 0.0 then 1.0 / sqrt(len) else 0.0
    }

    /** `vec3.normalize`: the zero vector stays zero. */
    function Normalize(a: Vec3): Vec3 { Scale(a, InvLength(a)) }

    /** `vec3.rotateY(out, a, origin, rad)`: a turned by rad about the y axis through the origin. */
    function RotateY(a: Vec3, rad: real): Vec3 {
      Vec3(a.z * sin(rad) + a.x * cos(rad), a.y, a.z * cos(rad) - a.x * sin(rad))
    }

    /** A turn about the y axis keeps the height and the horizontal distance from the axis. */
    lemma RotateYKeepsRadius(a: Vec3, rad: real)
      requires Valid()
      ensures RotateY(a, rad).y == a.y
      ensures HorizontalDistSq(RotateY(a, rad), Zero) == HorizontalDistSq(a, Zero)
    {
      assert cos(rad) * cos(rad) + sin(rad) * sin(rad) == 1.0;
      TurnArithmetic(a.x, a.z, cos(rad), sin(rad));
    }

    lemma TurnArithmetic(x: real, z: real, c: real, s: real)
      requires c * c + s * s == 1.0
      ensures (z * s + x * c) * (z * s + x * c) + (z * c - x * s) * (z * c - x * s) == x * x + z * z
    {
      calc {
        (z * s + x * c) * (z * s + x * c) + (z * c - x * s) * (z * c - x * s);
        z * z * (s * s + c * c) + x * x * (c * c + s * s);
        x * x + z * z;
      }
    }

    lemma SqrtFacts(r: real)
      requires Valid() && 0.0 <= r
      ensures 0.0 <= sqrt(r) && sqrt(r) * sqrt(r) == r
      ensures 0.0 < r ==> 0.0 < sqrt(r)
    {}

    lemma InvLengthPositive(a: Vec3)
      requires Valid() && LengthSq(a) > 0.0
      ensures InvLength(a) > 0.0
      ensures InvLength(a) * InvLength(a) * LengthSq(a) == 1.0
    {
      SqrtFacts(LengthSq(a));
    }

    /** A normalised vector has squared length 1, or is zero when the input has length 0. */
    lemma NormalizeUnit(a: Vec3)
      requires Valid()
      ensures LengthSq(a) > 0.0 ==> LengthSq(Normalize(a)) == 1.0
      ensures LengthSq(a) <= 0.0 ==> Normalize(a) == Zero
    {
      var k := InvLength(a);
      LengthSqScale(a, k);
      if LengthSq(a) > 0.0 {
        InvLengthPositive(a);
        assert LengthSq(Normalize(a)) == k * k * LengthSq(a);
      }
    }

    /** A normalised vector has squared length 0 or 1. */
    lemma NormalizeLengthSq(a: Vec3)
      requires Valid()
      ensures LengthSq(Normalize(a)) == 0.0 || LengthSq(Normalize(a)) == 1.0
    {
      NormalizeUnit(a);
      LengthSqNonNegative(a);
    }

    /** `vec3.distance(a, b) < r` is `|a - b|² < r²` for a non-negative bound. */
    lemma DistanceCompare(a: Vec3, b: Vec3, r: real)
      requires Valid() && 0.0 <= r
      ensures Distance(a, b) < r <==> DistSq(a, b) < r * r
      ensures Distance(a, b) > r <==> DistSq(a, b) > r * r
    {
      LengthSqNonNegative(Sub(a, b));
      SqrtCompare(DistSq(a, b), r);
    }

    lemma SqrtCompare(s: real, r: real)
      requires Valid() && 0.0 <= r && 0.0 <= s
      ensures sqrt(s) < r <==> s < r * r
      ensures sqrt(s) > r <==> s > r * r
    {
      var q := sqrt(s);
      SqrtFacts(s);
      if q < r {
        assert q * q < r * r by { MulLess(q, r); }
      }
      if q > r {
        assert r * r < q * q by { MulLess(r, q); }
      }
      if q == r {
        assert q * q == r * r;
      }
    }

    lemma MulLess(a: real, b: real)
      requires 0.0 <= a < b
      ensures a * a < b * b
    {
      var d := b - a;
      MulNonNegative(a, d);
      MulPositive(b, d);
      assert b * b == (a + d) * (a + d) == a * a + 2.0 * (a * d) + d * d;
      assert d * d > 0.0 by { MulPositive(d, d); }
    }

    lemma MulNonNegative(a: real, b: real)
      requires 0.0 <= a && 0.0 <= b
      ensures 0.0 <= a * b
    {}

    lemma MulPositive(a: real, b: real)
      requires 0.0 < a && 0.0 < b
      ensures 0.0 < a * b
    {}
  }
}
