/** Vertex of the CSG engine: a position wrapper with interpolation. */
module Vertices {
  import opened Vectors

  datatype Vertex = Vertex(position: Vector3) {

    /** A fresh vertex at the same position (a value copy). */
    function Clone(): (r: Vertex)
      ensures r.position.x == position.x && r.position.y == position.y && r.position.z == position.z
    {
      Vertex(position.Clone())
    }

    /** The vertex at parameter t on the segment from this vertex to `other`. */
    function Lerp(other: Vertex, t: real): Vertex
    {
      Vertex(position.Lerp(other.position, t))
    }
  }

  /** lerp at t = 0 is this vertex's position, at t = 1 the other's. */
  lemma LerpEndpoints(a: Vertex, b: Vertex)
    ensures a.Lerp(b, 0.0).position == a.position
    ensures a.Lerp(b, 1.0).position == b.position
  {
    Vectors.LerpEndpoints(a.position, b.position);
  }

  /** The signed distance of an interpolated vertex to any plane (n, w) is the affine combination of its endpoints' distances. */
  lemma LerpSignedDistance(a: Vertex, b: Vertex, t: real, n: Vector3, w: real)
    ensures n.Dot(a.Lerp(b, t).position) - w
         == (1.0 - t) * (n.Dot(a.position) - w) + t * (n.Dot(b.position) - w)
  {
    LerpDot(a.position, b.position, t, n);
  }
}
