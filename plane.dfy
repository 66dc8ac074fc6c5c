/**
 * Plane of the CSG engine: a normal and an offset w, so that the points p
 * of the plane satisfy normal . p == w. A plane is built from three points,
 * flips orientation, and classifies points with the EPS tolerance.
 */
module Planes {
  import opened Wrappers
  import opened Vectors

  /** Point and polygon classes; a polygon's class is the bitwise or of its vertices' classes. */
  const COPLANAR: bv2 := 0
  const FRONT: bv2 := 1
  const BACK: bv2 := 2
  const SPANNING: bv2 := 3

  /** Or-ing COPLANAR into a class leaves it unchanged, and FRONT with BACK is SPANNING. */
  lemma BitConstants(k: bv2)
    ensures k | COPLANAR == k
    ensures FRONT | BACK == SPANNING
  {
  }

  datatype Plane = Plane(normal: Vector3, w: real) {

    function Clone(): (r: Plane)
      ensures r.normal == normal && r.w == w
    {
      Plane(normal.Clone(), w)
    }

    function Flip(): Plane
    {
      Plane(normal.Negate(), -w)
    }

    /** `normal . p - w`: positive in front of the plane, negative behind it. */
    function SignedDistance(p: Vector3): real
    {
      normal.Dot(p) - w
    }

    /** BACK below -EPS, FRONT above EPS, COPLANAR in between. */
    function Classify(p: Vector3): bv2
    {
      var d := SignedDistance(p);
      if d < -EPS then BACK else if d > EPS then FRONT else COPLANAR
    }
  }

  /** The unnormalised normal `(b - a) x (c - a)` of the triangle a, b, c. */
  function TriangleNormal(a: Vector3, b: Vector3, c: Vector3): Vector3
  {
    b.Subtract(a).Cross(c.Subtract(a))
  }

  /**
   * The plane through a, b, c, oriented by their winding, or None when the
   * cross product is shorter than EPS (collinear or coincident points).
   */
  function FromPoints(a: Vector3, b: Vector3, c: Vector3, sqrt: real -> real): Option<Plane>
  {
    var n := TriangleNormal(a, b, c);
    var len := n.Length(sqrt);
    if len < EPS then None
    else
      var u := n.Multiply(Reciprocal(len));
      Some(Plane(u, u.Dot(a)))
  }

  /** A plane from fromPoints passes through all three points. */
  lemma FromPointsThrough(a: Vector3, b: Vector3, c: Vector3, sqrt: real -> real)
    ensures FromPoints(a, b, c, sqrt).Some? ==>
      var p := FromPoints(a, b, c, sqrt).value;
      p.SignedDistance(a) == 0.0 && p.SignedDistance(b) == 0.0 && p.SignedDistance(c) == 0.0
  {
    if FromPoints(a, b, c, sqrt).Some? {
      ThroughPoints(a, b, c, Reciprocal(TriangleNormal(a, b, c).Length(sqrt)));
    }
  }

  /** Every multiple of the triangle normal gives the same projection to a, b and c. */
  lemma ThroughPoints(a: Vector3, b: Vector3, c: Vector3, k: real)
    ensures var u := TriangleNormal(a, b, c).Multiply(k);
      u.Dot(b) == u.Dot(a) && u.Dot(c) == u.Dot(a)
  {
    var e1, e2 := b.Subtract(a), c.Subtract(a);
    var n := e1.Cross(e2);
    var u := n.Multiply(k);
    CrossOrthogonal(e1, e2);
    DotSelf(u, e1);
    DotSelf(u, e2);
    MultiplyDot(e1, n, k);
    MultiplyDot(e2, n, k);
    DotSubtract(u, b, a);
    DotSubtract(u, c, a);
  }

  /** With an exact square root, fromPoints fails exactly when the squared cross product is below EPS squared. */
  lemma FromPointsNone(a: Vector3, b: Vector3, c: Vector3, sqrt: real -> real)
    requires ExactSqrt(sqrt)
    ensures var n := TriangleNormal(a, b, c);
      FromPoints(a, b, c, sqrt).None? <==> n.Dot(n) < EPS * EPS
  {
    var n := TriangleNormal(a, b, c);
    var s := n.Length(sqrt);
    LengthSquared(n, sqrt);
    SquareMonotone(s, EPS);
  }

  /** For non-negative s and e, s < e exactly when s * s < e * e. */
  lemma SquareMonotone(s: real, e: real)
    requires s >= 0.0 && e > 0.0
    ensures s < e <==> s * s < e * e
  {
    var d := e - s;
    assert e * e - s * s == (e + s) * d;
    if s < e {
      assert (e + s) * d > 0.0;
    } else {
      assert (e + s) * (-d) >= 0.0;
    }
  }

  /** With an exact square root, a plane from fromPoints has a unit normal. */
  lemma FromPointsUnitNormal(a: Vector3, b: Vector3, c: Vector3, sqrt: real -> real)
    requires ExactSqrt(sqrt)
    requires FromPoints(a, b, c, sqrt).Some?
    ensures var p := FromPoints(a, b, c, sqrt).value;
      p.normal.Dot(p.normal) == 1.0
  {
    ScaledToUnit(TriangleNormal(a, b, c), sqrt);
  }

  /** Flipping negates the signed distance of every point and swaps FRONT with BACK; flipping twice restores the plane. */
  lemma FlipInvolution(p: Plane, x: Vector3)
    ensures p.Flip().Flip() == p
    ensures p.Flip().SignedDistance(x) == -p.SignedDistance(x)
    ensures p.Classify(x) == FRONT <==> p.Flip().Classify(x) == BACK
    ensures p.Classify(x) == BACK <==> p.Flip().Classify(x) == FRONT
    ensures p.Classify(x) == COPLANAR <==> p.Flip().Classify(x) == COPLANAR
  {
    NegateInverse(p.normal);
    assert p.Flip().normal.Dot(x) == -p.normal.Dot(x);
  }

  /** A point is FRONT, BACK or COPLANAR, never SPANNING. */
  lemma ClassBits(p: Plane, x: Vector3)
    ensures p.Classify(x) != SPANNING
  {
  }
}
