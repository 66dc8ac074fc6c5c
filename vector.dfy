/**
 * Vector3 of the CSG engine: an immutable triple of reals. Every operation
 * builds a new value; nothing is ever updated in place.
 *
 * `Math.sqrt` has no counterpart over Dafny's reals, so `length` and `unit`
 * take the square root as a parameter `sqrt`; the facts that depend on it
 * being exact require `ExactSqrt(sqrt)`.
 */
module Vectors {

  /** The tolerance of every "near zero" test of the engine. */
  const EPS: real := 0.00001

  /** `1 / x`, as the engine scales a vector by the inverse of its length. */
  function Reciprocal(x: real): real
    requires x != 0.0
  {
    1.0 / x
  }

  /** `sqrt` is an exact square root on the non-negative reals. */
  ghost predicate ExactSqrt(sqrt: real -> real)
  {
    forall x: real {:trigger sqrt(x)} :: 0.0 <= x ==> 0.0 <= sqrt(x) && sqrt(x) * sqrt(x) == x
  }

  datatype Vector3 = Vector3(x: real, y: real, z: real) {

    function Clone(): (r: Vector3)
      ensures r.x == x && r.y == y && r.z == z
    {
      Vector3(x, y, z)
    }

    function Negate(): Vector3
    {
      Vector3(-x, -y, -z)
    }

    function Add(v: Vector3): Vector3
    {
      Vector3(x + v.x, y + v.y, z + v.z)
    }

    function Subtract(v: Vector3): Vector3
    {
      Vector3(x - v.x, y - v.y, z - v.z)
    }

    function Multiply(s: real): Vector3
    {
      Vector3(x * s, y * s, z * s)
    }

    function Dot(v: Vector3): real
    {
      x * v.x + y * v.y + z * v.z
    }

    function Cross(v: Vector3): Vector3
    {
      Vector3(y * v.z - z * v.y, z * v.x - x * v.z, x * v.y - y * v.x)
    }

    /** `Math.sqrt(this.dot(this))`, with `Math.sqrt` supplied as `sqrt`. */
    function Length(sqrt: real -> real): real
    {
      sqrt(Dot(this))
    }

    function Unit(sqrt: real -> real): Vector3
    {
      var len := Length(sqrt);
      if len > EPS then Multiply(Reciprocal(len)) else Vector3(0.0, 0.0, 0.0)
    }

    function Lerp(v: Vector3, t: real): Vector3
    {
      Add(v.Subtract(this).Multiply(t))
    }
  }

  function Zero(): Vector3
  {
    Vector3(0.0, 0.0, 0.0)
  }

  /** negate is an involution and an additive inverse. */
  lemma NegateInverse(v: Vector3)
    ensures v.Negate().Negate() == v
    ensures v.Add(v.Negate()) == Zero()
  {
  }

  /** add and subtract undo each other, and add is commutative. */
  lemma AddSubtractInverse(u: Vector3, v: Vector3)
    ensures u.Add(v) == v.Add(u)
    ensures u.Add(v).Subtract(v) == u
    ensures v.Add(u.Subtract(v)) == u
  {
  }

  /** Scaling a vector by s scales every projection onto it by s. */
  lemma MultiplyDot(u: Vector3, v: Vector3, s: real)
    ensures u.Dot(v.Multiply(s)) == s * u.Dot(v)
    ensures v.Multiply(1.0) == v
  {
    calc {
      u.Dot(v.Multiply(s));
      u.x * (v.x * s) + u.y * (v.y * s) + u.z * (v.z * s);
      s * (u.x * v.x) + s * (u.y * v.y) + s * (u.z * v.z);
      s * u.Dot(v);
    }
  }

  /** The cross product is orthogonal to both operands and vanishes on a vector with itself. */
  lemma CrossOrthogonal(a: Vector3, b: Vector3)
    ensures a.Dot(a.Cross(b)) == 0.0
    ensures b.Dot(a.Cross(b)) == 0.0
    ensures a.Cross(a) == Zero()
  {
    var c := a.Cross(b);
    assert a.Dot(c) == a.x * (a.y * b.z) - a.x * (a.z * b.y) + a.y * (a.z * b.x) - a.y * (a.x * b.z) + a.z * (a.x * b.y) - a.z * (a.y * b.x);
    assert b.Dot(c) == b.x * (a.y * b.z) - b.x * (a.z * b.y) + b.y * (a.z * b.x) - b.y * (a.x * b.z) + b.z * (a.x * b.y) - b.z * (a.y * b.x);
  }

  /** lerp starts at this vector (t = 0) and ends at the other (t = 1). */
  lemma LerpEndpoints(a: Vector3, b: Vector3)
    ensures a.Lerp(b, 0.0) == a
    ensures a.Lerp(b, 1.0) == b
  {
  }

  /** The dot product is symmetric and a vector's square norm is non-negative. */
  lemma DotSelf(u: Vector3, v: Vector3)
    ensures u.Dot(v) == v.Dot(u)
    ensures u.Dot(u) >= 0.0
  {
    SquareNonNegative(u.x);
    SquareNonNegative(u.y);
    SquareNonNegative(u.z);
  }

  lemma SquareNonNegative(a: real)
    ensures a * a >= 0.0
  {
    if a < 0.0 {
      assert (-a) * (-a) > 0.0;
    }
  }

  /** The dot product distributes over subtraction in its second argument. */
  lemma DotSubtract(n: Vector3, a: Vector3, b: Vector3)
    ensures n.Dot(a.Subtract(b)) == n.Dot(a) - n.Dot(b)
  {
  }

  /** With an exact square root, `length` is non-negative and squares to `dot(this, this)`. */
  lemma LengthSquared(v: Vector3, sqrt: real -> real)
    requires ExactSqrt(sqrt)
    ensures v.Length(sqrt) >= 0.0
    ensures v.Length(sqrt) * v.Length(sqrt) == v.Dot(v)
  {
    DotSelf(v, v);
  }

  /** With an exact square root, dividing a vector of positive length by its length gives a vector of length 1. */
  lemma ScaledToUnit(v: Vector3, sqrt: real -> real)
    requires ExactSqrt(sqrt)
    requires v.Length(sqrt) > 0.0
    ensures var u := v.Multiply(Reciprocal(v.Length(sqrt))); u.Dot(u) == 1.0
  {
    var len := v.Length(sqrt);
    LengthSquared(v, sqrt);
    var k := Reciprocal(len);
    var u := v.Multiply(k);
    MultiplyDot(u, v, k);
    MultiplyDot(v, v, k);
    DotSelf(u, v);
    assert k * len == 1.0;
    calc {
      u.Dot(u);
      k * (k * v.Dot(v));
      k * (k * (len * len));
      (k * len) * (k * len);
      1.0;
    }
  }

  /** `unit` gives the zero vector at or below EPS; above it, a vector of length 1 in the same direction. */
  lemma UnitLength(v: Vector3, sqrt: real -> real)
    requires ExactSqrt(sqrt)
    ensures v.Length(sqrt) <= EPS ==> v.Unit(sqrt) == Zero()
    ensures v.Length(sqrt) > EPS ==>
      v.Unit(sqrt).Dot(v.Unit(sqrt)) == 1.0 && v.Unit(sqrt) == v.Multiply(Reciprocal(v.Length(sqrt)))
  {
    if v.Length(sqrt) > EPS {
      ScaledToUnit(v, sqrt);
    }
  }

  /** The signed projection of an interpolated point is the affine combination of its endpoints' projections. */
  lemma LerpDot(a: Vector3, b: Vector3, t: real, n: Vector3)
    ensures n.Dot(a.Lerp(b, t)) == (1.0 - t) * n.Dot(a) + t * n.Dot(b)
  {
    var d := b.Subtract(a);
    assert n.Dot(d.Multiply(t)) == t * n.Dot(d);
    DotSubtract(n, b, a);
    assert n.Dot(a.Add(d.Multiply(t))) == n.Dot(a) + n.Dot(d.Multiply(t));
  }
}
