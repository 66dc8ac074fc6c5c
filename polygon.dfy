/**
 * Polygon of the CSG engine: an ordered vertex list and the plane derived
 * once, at construction, from its first three vertices.
 */
module Polygons {
  import opened Wrappers
  import opened Vectors
  import opened Vertices
  import opened Planes

  datatype Polygon = Polygon(vertices: seq<Vertex>, plane: Option<Plane>) {

    /** Reverses the winding and flips the plane; a missing plane stays missing. */
    function Flip(): (r: Polygon)
      ensures |r.vertices| == |vertices|
      ensures forall i :: 0 <= i < |vertices| ==> r.vertices[i] == vertices[|vertices| - 1 - i]
      ensures r.plane.None? <==> plane.None?
      ensures plane.Some? ==> r.plane == Some(plane.value.Flip())
    {
      Polygon(Reverse(vertices), if plane.Some? then Some(plane.value.Flip()) else None)
    }

    /** A polygon built anew from copies of the vertices; its plane is derived again. */
    function Clone(sqrt: real -> real): (r: Polygon)
      ensures |r.vertices| == |vertices|
      ensures forall i :: 0 <= i < |vertices| ==> r.vertices[i].position == vertices[i].position
      ensures r.plane == PlaneOf(vertices, sqrt)
    {
      NewPolygon(seq(|vertices|, i requires 0 <= i < |vertices| => vertices[i].Clone()), sqrt)
    }
  }

  function Reverse<T>(s: seq<T>): (r: seq<T>)
    ensures |r| == |s|
    ensures forall i :: 0 <= i < |s| ==> r[i] == s[|s| - 1 - i]
  {
    seq(|s|, i requires 0 <= i < |s| => s[|s| - 1 - i])
  }

  /** The plane of the first three vertices, or None for fewer than three vertices or a degenerate triangle. */
  function PlaneOf(vs: seq<Vertex>, sqrt: real -> real): Option<Plane>
  {
    if |vs| >= 3 then FromPoints(vs[0].position, vs[1].position, vs[2].position, sqrt) else None
  }

  /** `new Polygon(vertices)`. */
  function NewPolygon(vs: seq<Vertex>, sqrt: real -> real): (r: Polygon)
    ensures r.vertices == vs
    ensures r.plane.None? <==> |vs| < 3 || FromPoints(vs[0].position, vs[1].position, vs[2].position, sqrt).None?
    ensures r.plane.Some? ==> r.plane == FromPoints(vs[0].position, vs[1].position, vs[2].position, sqrt)
  {
    Polygon(vs, PlaneOf(vs, sqrt))
  }

  /** A polygon's plane passes through its first three vertices. */
  lemma NewPolygonThrough(vs: seq<Vertex>, sqrt: real -> real)
    ensures NewPolygon(vs, sqrt).plane.Some? ==>
      forall i :: 0 <= i < 3 ==> NewPolygon(vs, sqrt).plane.value.SignedDistance(vs[i].position) == 0.0
  {
    if |vs| >= 3 {
      FromPointsThrough(vs[0].position, vs[1].position, vs[2].position, sqrt);
    }
  }

  /** Flipping twice restores the vertex order and the plane. */
  lemma {:induction false} FlipInvolution(p: Polygon)
    ensures p.Flip().Flip() == p
  {
    var q := p.Flip().Flip();
    assert q.vertices == p.vertices;
    if p.plane.Some? {
      Planes.FlipInvolution(p.plane.value, Zero());
    }
  }

  /** Cloning keeps the vertex positions, so a clone of a freshly built polygon equals it. */
  lemma CloneOfNew(vs: seq<Vertex>, sqrt: real -> real)
    ensures NewPolygon(vs, sqrt).Clone(sqrt) == NewPolygon(vs, sqrt)
  {
    var c := NewPolygon(vs, sqrt).Clone(sqrt);
    assert c.vertices == vs;
  }
}
