/**
 * The terrain query of `_getHeightAndNormalAt`, as a function of a lattice height
 * function `h`: the unit cell around (x, z) is split along its diagonal, the
 * triangle holding the point is chosen, its normal is computed from two edges,
 * and the height is read off the plane through the triangle.
 */
module Terrain {
  import opened Vectors

  /** `Math.ceil`. */
  function Ceil(x: real): int { -((-x).Floor) }

  /** `x1 === x ? x + 1 : Math.ceil(x)`: the far corner of the cell holding x. */
  function FarCorner(x: real): int {
    var x1 := x.Floor;
    if x1 as real == x then x1 + 1 else Ceil(x)
  }

  /** The far corner is always one past the near corner, and x lies in [x1, x1 + 1). */
  lemma CellOf(x: real)
    ensures FarCorner(x) == x.Floor + 1
    ensures 0.0 <= x - x.Floor as real < 1.0
  {
    var x1 := x.Floor;
    if x1 as real != x {
      assert x1 as real < x < x1 as real + 1.0;
      assert (-x).Floor == -x1 - 1;
    }
  }

  /** The triangle the query uses: vertices s1, s2, s3 and the two edge vectors. */
  datatype Triangle = Triangle(s1: Vec3, s2: Vec3, s3: Vec3, tangent: Vec3, binormal: Vec3)

  /** The vertex of the lattice height function at (a, b). */
  function Vertex(h: (int, int) -> real, a: int, b: int): Vec3 {
    Vec3(a as real, h(a, b), b as real)
  }

  function TriangleAt(h: (int, int) -> real, x: real, z: real): Triangle {
    var x1, z1 := x.Floor, z.Floor;
    var x2, z2 := FarCorner(x), FarCorner(z);
    if x - x1 as real >= z - z1 as real then
      var s1, s2, s3 := Vertex(h, x1, z1), Vertex(h, x2, z1), Vertex(h, x2, z2);
      Triangle(s1, s2, s3, Sub(s1, s2), Sub(s3, s2))
    else
      var s1, s2, s3 := Vertex(h, x2, z2), Vertex(h, x1, z2), Vertex(h, x1, z1);
      Triangle(s1, s2, s3, Sub(s2, s1), Sub(s2, s3))
  }

  /**
   * The y that solves n·(x, y, z) + d = 0 with d = -(n·p), i.e. the height at (x, z)
   * of the plane through p with normal n. The source divides by n.y unguarded; the
   * guard only covers a vertical plane, which `ShadeNormalUp` shows never occurs.
   */
  function PlaneHeight(n: Vec3, p: Vec3, x: real, z: real): real {
    var d := -(n.x * p.x + n.y * p.y + n.z * p.z);
    if n.y != 0.0 then -(d + n.x * x + n.z * z) / n.y else 0.0
  }

  /** What the query returns, without the chunk. */
  datatype Shading = Shading(height: real, normal: Vec3, tangent: Vec3, binormal: Vec3)

  function Shade(math: MathLib, h: (int, int) -> real, x: real, z: real): Shading {
    ShadeTriangle(math, TriangleAt(h, x, z), x, z)
  }

  /** Normalises the edges, takes their cross product as the normal and solves the plane for (x, z). */
  function ShadeTriangle(math: MathLib, t: Triangle, x: real, z: real): Shading {
    var tangent := math.Normalize(t.tangent);
    var binormal := math.Normalize(t.binormal);
    var normal := math.Normalize(Cross(tangent, binormal));
    Shading(PlaneHeight(normal, t.s1, x, z), normal, tangent, binormal)
  }

  /**
   * Both triangles have edges of the form (-1, p, 0) and (0, q, 1); the normal of
   * such a pair points up and is the unit multiple of (p, 1, -q).
   */
  lemma EdgeNormal(math: MathLib, p: real, q: real)
    requires math.Valid()
    ensures var n := math.Normalize(Cross(math.Normalize(Vec3(-1.0, p, 0.0)), math.Normalize(Vec3(0.0, q, 1.0))));
      && n.y > 0.0 && n.x == n.y * p && n.z == -(n.y * q) && LengthSq(n) == 1.0
  {
    var t, b := Vec3(-1.0, p, 0.0), Vec3(0.0, q, 1.0);
    assert p * p >= 0.0 && q * q >= 0.0;
    var k1, k2 := math.InvLength(t), math.InvLength(b);
    math.InvLengthPositive(t);
    math.InvLengthPositive(b);
    CrossScale(t, b, k1, k2);
    assert Cross(t, b) == Vec3(p, 1.0, -q);
    var m := k1 * k2;
    math.MulPositive(k1, k2);
    var v := Scale(Vec3(p, 1.0, -q), m);
    assert LengthSq(v) > 0.0 by {
      math.MulPositive(m, m);
      assert (p * m) * (p * m) >= 0.0 && (-q * m) * (-q * m) >= 0.0;
    }
    var k3 := math.InvLength(v);
    math.InvLengthPositive(v);
    math.NormalizeUnit(v);
    var n := Scale(v, k3);
    math.MulPositive(m, k3);
    assert n.y == m * k3;
    assert n.x == (p * m) * k3 == (m * k3) * p;
    assert n.z == (-q * m) * k3 == -((m * k3) * q);
  }

  /** With such a normal, the plane height is the plane through p with slopes p', q'. */
  lemma PlaneHeightSlopes(n: Vec3, sp: real, sq: real, s: Vec3, x: real, z: real)
    requires n.y > 0.0 && n.x == n.y * sp && n.z == -(n.y * sq)
    ensures PlaneHeight(n, s, x, z) == s.y + sp * (s.x - x) - sq * (s.z - z)
  {
    var r := s.y + sp * (s.x - x) - sq * (s.z - z);
    var num := n.x * s.x + n.y * s.y + n.z * s.z - n.x * x - n.z * z;
    assert num == n.y * r;
    assert PlaneHeight(n, s, x, z) == num / n.y;
  }

  /** The triangle's edges, in terms of the lattice heights of its cell. */
  lemma TriangleEdges(h: (int, int) -> real, x: real, z: real)
    ensures var t := TriangleAt(h, x, z);
      var x1, z1 := x.Floor, z.Floor;
      if x - x1 as real >= z - z1 as real then
        && t.tangent == Vec3(-1.0, h(x1, z1) - h(x1 + 1, z1), 0.0)
        && t.binormal == Vec3(0.0, h(x1 + 1, z1 + 1) - h(x1 + 1, z1), 1.0)
      else
        && t.tangent == Vec3(-1.0, h(x1, z1 + 1) - h(x1 + 1, z1 + 1), 0.0)
        && t.binormal == Vec3(0.0, h(x1, z1 + 1) - h(x1, z1), 1.0)
  {
    CellOf(x);
    CellOf(z);
  }

  /** Both triangles have edges (-1, p, 0) and (0, q, 1). */
  lemma EdgeShape(h: (int, int) -> real, x: real, z: real)
    ensures var t := TriangleAt(h, x, z);
      t.tangent == Vec3(-1.0, t.tangent.y, 0.0) && t.binormal == Vec3(0.0, t.binormal.y, 1.0)
  {
    CellOf(x);
    CellOf(z);
  }

  /** The terrain normal is a unit vector pointing up, so the plane is never vertical. */
  lemma ShadeNormalUp(math: MathLib, h: (int, int) -> real, x: real, z: real)
    requires math.Valid()
    ensures Shade(math, h, x, z).normal.y > 0.0
    ensures LengthSq(Shade(math, h, x, z).normal) == 1.0
    ensures LengthSq(Shade(math, h, x, z).tangent) == 1.0
    ensures LengthSq(Shade(math, h, x, z).binormal) == 1.0
  {
    var t := TriangleAt(h, x, z);
    TriangleEdges(h, x, z);
    EdgeNormal(math, t.tangent.y, t.binormal.y);
    assert t.tangent.y * t.tangent.y >= 0.0 && t.binormal.y * t.binormal.y >= 0.0;
    math.NormalizeUnit(t.tangent);
    math.NormalizeUnit(t.binormal);
  }

  /** n is the upward normal of a triangle with edges (-1, p, 0) and (0, q, 1): a positive multiple of (p, 1, -q). */
  predicate UpwardNormal(t: Triangle, n: Vec3) {
    n.y > 0.0 && n.x == n.y * t.tangent.y && n.z == -(n.y * t.binormal.y)
  }

  lemma ShadeNormalSlopes(math: MathLib, h: (int, int) -> real, x: real, z: real)
    requires math.Valid()
    ensures UpwardNormal(TriangleAt(h, x, z), Shade(math, h, x, z).normal)
  {
    EdgeShape(h, x, z);
    EdgesNormalSlopes(math, TriangleAt(h, x, z), x, z);
  }

  lemma EdgesNormalSlopes(math: MathLib, t: Triangle, x: real, z: real)
    requires math.Valid()
    requires t.tangent == Vec3(-1.0, t.tangent.y, 0.0) && t.binormal == Vec3(0.0, t.binormal.y, 1.0)
    ensures UpwardNormal(t, ShadeTriangle(math, t, x, z).normal)
  {
    EdgeNormal(math, t.tangent.y, t.binormal.y);
  }

  /**
   * The height is the linear interpolation of the three vertex heights over the
   * chosen triangle, with (xl, zl) the point's position inside its cell.
   */
  lemma ShadeInterpolates(math: MathLib, h: (int, int) -> real, x: real, z: real)
    requires math.Valid()
    ensures var x1, z1 := x.Floor, z.Floor;
      var xl, zl := x - x1 as real, z - z1 as real;
      var height := Shade(math, h, x, z).height;
      if xl >= zl then
        height == h(x1, z1) + xl * (h(x1 + 1, z1) - h(x1, z1)) + zl * (h(x1 + 1, z1 + 1) - h(x1 + 1, z1))
      else
        height == h(x1, z1) + xl * (h(x1 + 1, z1 + 1) - h(x1, z1 + 1)) + zl * (h(x1, z1 + 1) - h(x1, z1))
  {
    ShadeNormalSlopes(math, h, x, z);
    FacetInterpolates(TriangleAt(h, x, z), Shade(math, h, x, z).normal, h, x, z);
  }

  lemma FacetInterpolates(t: Triangle, n: Vec3, h: (int, int) -> real, x: real, z: real)
    requires t == TriangleAt(h, x, z) && UpwardNormal(t, n)
    ensures var x1, z1 := x.Floor, z.Floor;
      var xl, zl := x - x1 as real, z - z1 as real;
      var height := PlaneHeight(n, t.s1, x, z);
      if xl >= zl then
        height == h(x1, z1) + xl * (h(x1 + 1, z1) - h(x1, z1)) + zl * (h(x1 + 1, z1 + 1) - h(x1 + 1, z1))
      else
        height == h(x1, z1) + xl * (h(x1 + 1, z1 + 1) - h(x1, z1 + 1)) + zl * (h(x1, z1 + 1) - h(x1, z1))
  {
    var x1, z1 := x.Floor, z.Floor;
    var xl, zl := x - x1 as real, z - z1 as real;
    TriangleEdges(h, x, z);
    CellOf(x);
    CellOf(z);
    PlaneHeightSlopes(n, t.tangent.y, t.binormal.y, t.s1, x, z);
    var h11, h21, h12, h22 := h(x1, z1), h(x1 + 1, z1), h(x1, z1 + 1), h(x1 + 1, z1 + 1);
    if xl >= zl {
      assert t.s1 == Vec3(x1 as real, h11, z1 as real);
      InterpolateLow(h11, h21, h22, xl, zl);
    } else {
      assert t.s1 == Vec3(x1 as real + 1.0, h22, z1 as real + 1.0);
      InterpolateHigh(h11, h12, h22, xl, zl);
    }
  }

  lemma InterpolateLow(h11: real, h21: real, h22: real, xl: real, zl: real)
    ensures h11 + (h11 - h21) * (-xl) - (h22 - h21) * (-zl) == h11 + xl * (h21 - h11) + zl * (h22 - h21)
  {}

  lemma InterpolateHigh(h11: real, h12: real, h22: real, xl: real, zl: real)
    ensures h22 + (h12 - h22) * (1.0 - xl) - (h12 - h11) * (1.0 - zl) == h11 + xl * (h22 - h12) + zl * (h12 - h11)
  {}

  /** The plane passes through all three vertices of the chosen triangle. */
  lemma ShadeThroughVertices(math: MathLib, h: (int, int) -> real, x: real, z: real)
    requires math.Valid()
    ensures var t, n := TriangleAt(h, x, z), Shade(math, h, x, z).normal;
      && PlaneHeight(n, t.s1, t.s1.x, t.s1.z) == t.s1.y
      && PlaneHeight(n, t.s1, t.s2.x, t.s2.z) == t.s2.y
      && PlaneHeight(n, t.s1, t.s3.x, t.s3.z) == t.s3.y
  {
    ShadeNormalSlopes(math, h, x, z);
    FacetThroughVertices(TriangleAt(h, x, z), Shade(math, h, x, z).normal, h, x, z);
  }

  lemma FacetThroughVertices(t: Triangle, n: Vec3, h: (int, int) -> real, x: real, z: real)
    requires t == TriangleAt(h, x, z) && UpwardNormal(t, n)
    ensures && PlaneHeight(n, t.s1, t.s1.x, t.s1.z) == t.s1.y
            && PlaneHeight(n, t.s1, t.s2.x, t.s2.z) == t.s2.y
            && PlaneHeight(n, t.s1, t.s3.x, t.s3.z) == t.s3.y
  {
    EdgeShape(h, x, z);
    CellOf(x);
    CellOf(z);
    PlaneHeightSlopes(n, t.tangent.y, t.binormal.y, t.s1, t.s1.x, t.s1.z);
    PlaneHeightSlopes(n, t.tangent.y, t.binormal.y, t.s1, t.s2.x, t.s2.z);
    PlaneHeightSlopes(n, t.tangent.y, t.binormal.y, t.s1, t.s3.x, t.s3.z);
  }

  /** On the diagonal both triangles give the same height: the surface is continuous there. */
  lemma DiagonalAgrees(h: (int, int) -> real, x1: int, z1: int, l: real)
    ensures h(x1, z1) + l * (h(x1 + 1, z1) - h(x1, z1)) + l * (h(x1 + 1, z1 + 1) - h(x1 + 1, z1))
         == h(x1, z1) + l * (h(x1 + 1, z1 + 1) - h(x1, z1 + 1)) + l * (h(x1, z1 + 1) - h(x1, z1))
  {}

  /** The query reads only the four corners of the cell holding (x, z). */
  lemma TriangleCorners(h: (int, int) -> real, x: real, z: real)
    ensures var t, x1, z1 := TriangleAt(h, x, z), x.Floor, z.Floor;
      forall v :: v in [t.s1, t.s2, t.s3] ==>
        exists a, b :: x1 <= a <= x1 + 1 && z1 <= b <= z1 + 1 && v == Vertex(h, a, b)
  {
    CellOf(x);
    CellOf(z);
  }
}
