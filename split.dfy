/**
 * `Plane.splitPolygon`: classify every vertex of a polygon against a plane
 * and route the polygon to one of four lists, or cut it into a front and a
 * back fragment along the plane.
 *
 * The four lists are passed by reference in the engine and callers pass the
 * same list more than once (`build` passes its own polygons as both coplanar
 * lists). The model returns what is appended to each list as a `SplitResult`
 * and every caller concatenates those onto its lists, so a call can only
 * append.
 */
module Splitting {
  import opened Wrappers
  import opened Vectors
  import opened Vertices
  import opened Planes
  import opened Polygons

  /** What one call appends to `coplanarFront`, `coplanarBack`, `front` and `back`. */
  datatype SplitResult = SplitResult(
    coplanarFront: seq<Polygon>,
    coplanarBack: seq<Polygon>,
    front: seq<Polygon>,
    back: seq<Polygon>)

  function Abs(x: real): real
  {
    if x < 0.0 then -x else x
  }

  function Min(a: real, b: real): real
  {
    if a <= b then a else b
  }

  function Max(a: real, b: real): real
  {
    if a >= b then a else b
  }

  /** The class of every vertex, in vertex order. */
  function Types(plane: Plane, vs: seq<Vertex>): (ts: seq<bv2>)
    ensures |ts| == |vs|
  {
    if |vs| == 0 then [] else Types(plane, vs[..|vs| - 1]) + [plane.Classify(vs[|vs| - 1].position)]
  }

  /** Entry i of the class list is the class of vertex i. */
  lemma {:induction false} TypesAt(plane: Plane, vs: seq<Vertex>, i: nat)
    requires i < |vs|
    ensures Types(plane, vs)[i] == plane.Classify(vs[i].position)
  {
    if i < |vs| - 1 {
      TypesAt(plane, vs[..|vs| - 1], i);
    }
  }

  /** The bitwise or of all classes: the polygon's class. */
  function OrAll(ts: seq<bv2>): bv2
  {
    if |ts| == 0 then COPLANAR else OrAll(ts[..|ts| - 1]) | ts[|ts| - 1]
  }

  /** Some entry of `ts` is `c`. */
  predicate Occurs(ts: seq<bv2>, c: bv2)
  {
    exists i :: 0 <= i < |ts| && ts[i] == c
  }

  /**
   * The intersection vertex on the edge vi -> vj, when the edge is not
   * parallel to the plane within EPS; its parameter is clamped to [0, 1].
   */
  function Crossing(plane: Plane, vi: Vertex, vj: Vertex): Option<Vertex>
  {
    var dn := plane.normal.Dot(vj.position.Subtract(vi.position));
    if Abs(dn) > EPS then
      var t := Max(0.0, Min(1.0, (plane.w - plane.normal.Dot(vi.position)) / dn));
      Some(vi.Lerp(vj, t))
    else
      None
  }

  /** The vertices inserted after vertex i: its edge's crossing when the edge's two classes or to SPANNING. */
  function EdgeCut(plane: Plane, vs: seq<Vertex>, ts: seq<bv2>, i: nat): seq<Vertex>
    requires |ts| == |vs| && i < |vs|
  {
    var j := (i + 1) % |vs|;
    if (ts[i] | ts[j]) == SPANNING then
      match Crossing(plane, vs[i], vs[j])
      case Some(v) => [v]
      case None => []
    else []
  }

  /** The front fragment after walking the first n edges: non-BACK vertices and crossings. */
  function FrontVertices(plane: Plane, vs: seq<Vertex>, ts: seq<bv2>, n: nat): seq<Vertex>
    requires |ts| == |vs| && n <= |vs|
  {
    if n == 0 then []
    else
      FrontVertices(plane, vs, ts, n - 1)
      + (if ts[n - 1] != BACK then [vs[n - 1]] else [])
      + EdgeCut(plane, vs, ts, n - 1)
  }

  /** The back fragment after walking the first n edges: non-FRONT vertices (copied when COPLANAR) and copies of the crossings. */
  function BackVertices(plane: Plane, vs: seq<Vertex>, ts: seq<bv2>, n: nat): seq<Vertex>
    requires |ts| == |vs| && n <= |vs|
  {
    if n == 0 then []
    else
      var cut := EdgeCut(plane, vs, ts, n - 1);
      BackVertices(plane, vs, ts, n - 1)
      + (if ts[n - 1] != FRONT then [if ts[n - 1] != BACK then vs[n - 1].Clone() else vs[n - 1]] else [])
      + (if |cut| == 1 then [cut[0].Clone()] else [])
  }

  /** The polygon built from a fragment, or nothing when the fragment has fewer than 3 vertices. */
  function Fragment(vs: seq<Vertex>, sqrt: real -> real): (r: seq<Polygon>)
    ensures |r| <= 1
    ensures |r| == 1 <==> |vs| >= 3
    ensures |r| == 1 ==> r[0].vertices == vs
  {
    if |vs| >= 3 then [NewPolygon(vs, sqrt)] else []
  }

  /**
   * What splitPolygon appends to its four lists. The engine reads
   * `polygon.plane!` in the coplanar case, so the polygon must have a plane.
   */
  function Split(plane: Plane, polygon: Polygon, sqrt: real -> real): SplitResult
    requires polygon.plane.Some?
  {
    var vs := polygon.vertices;
    var ts := Types(plane, vs);
    var polygonType := OrAll(ts);
    if polygonType == COPLANAR then
      if plane.normal.Dot(polygon.plane.value.normal) > 0.0 then SplitResult([polygon], [], [], [])
      else SplitResult([], [polygon], [], [])
    else if polygonType == FRONT then SplitResult([], [], [polygon], [])
    else if polygonType == BACK then SplitResult([], [], [], [polygon])
    else
      SplitResult([], [], Fragment(FrontVertices(plane, vs, ts, |vs|), sqrt),
                  Fragment(BackVertices(plane, vs, ts, |vs|), sqrt))
  }

  /** The engine's first loop: the class of every vertex and their bitwise or. */
  method ClassifyVertices(plane: Plane, vs: seq<Vertex>) returns (types: seq<bv2>, polygonType: bv2)
    ensures types == Types(plane, vs)
    ensures polygonType == OrAll(types)
  {
    polygonType := COPLANAR;
    types := [];
    for k := 0 to |vs|
      invariant types == Types(plane, vs[..k])
      invariant polygonType == OrAll(types)
    {
      var d := plane.normal.Dot(vs[k].position) - plane.w;
      var t := if d < -EPS then BACK else if d > EPS then FRONT else COPLANAR;
      polygonType := polygonType | t;
      assert (types + [t])[..|types|] == types;
      types := types + [t];
      assert vs[..k + 1][..k] == vs[..k];
    }
    assert vs[..|vs|] == vs;
  }

  /** The engine's edge walk in the spanning case, pushing into the two fragment lists. */
  method CutFragments(plane: Plane, vs: seq<Vertex>, types: seq<bv2>) returns (frontVertices: seq<Vertex>, backVertices: seq<Vertex>)
    requires |types| == |vs|
    ensures frontVertices == FrontVertices(plane, vs, types, |vs|)
    ensures backVertices == BackVertices(plane, vs, types, |vs|)
  {
    frontVertices, backVertices := [], [];
    for i := 0 to |vs|
      invariant frontVertices == FrontVertices(plane, vs, types, i)
      invariant backVertices == BackVertices(plane, vs, types, i)
    {
      frontVertices, backVertices := CutEdge(plane, vs, types, i, frontVertices, backVertices);
    }
  }

  /** One pass of the second loop: vertex i goes to its side or sides, then the crossing of edge i, if any, to both. */
  method CutEdge(plane: Plane, vs: seq<Vertex>, types: seq<bv2>, i: nat, f: seq<Vertex>, b: seq<Vertex>)
    returns (frontVertices: seq<Vertex>, backVertices: seq<Vertex>)
    requires |types| == |vs| && i < |vs|
    requires f == FrontVertices(plane, vs, types, i) && b == BackVertices(plane, vs, types, i)
    ensures frontVertices == FrontVertices(plane, vs, types, i + 1)
    ensures backVertices == BackVertices(plane, vs, types, i + 1)
  {
    frontVertices, backVertices := f, b;
    var j := (i + 1) % |vs|;
    var ti, tj := types[i], types[j];
    var vi, vj := vs[i], vs[j];
    if ti != BACK {
      frontVertices := frontVertices + [vi];
    }
    if ti != FRONT {
      backVertices := backVertices + [if ti != BACK then vi.Clone() else vi];
    }
    if (ti | tj) == SPANNING {
      var dn := plane.normal.Dot(vj.position.Subtract(vi.position));
      if Abs(dn) > EPS {
        var t := Max(0.0, Min(1.0, (plane.w - plane.normal.Dot(vi.position)) / dn));
        var newVertex := vi.Lerp(vj, t);
        frontVertices := frontVertices + [newVertex];
        backVertices := backVertices + [newVertex.Clone()];
      }
    }
  }

  /** `splitPolygon`: the classification loop, the four-way switch and, for a spanning polygon, the edge walk. */
  method SplitPolygon(plane: Plane, polygon: Polygon, sqrt: real -> real) returns (r: SplitResult)
    requires polygon.plane.Some?
    ensures r == Split(plane, polygon, sqrt)
  {
    var vs := polygon.vertices;
    var types, polygonType := ClassifyVertices(plane, vs);
    if polygonType == COPLANAR {
      if plane.normal.Dot(polygon.plane.value.normal) > 0.0 {
        r := SplitResult([polygon], [], [], []);
      } else {
        r := SplitResult([], [polygon], [], []);
      }
    } else if polygonType == FRONT {
      r := SplitResult([], [], [polygon], []);
    } else if polygonType == BACK {
      r := SplitResult([], [], [], [polygon]);
    } else {
      var frontVertices, backVertices := CutFragments(plane, vs, types);
      var f, b := [], [];
      if |frontVertices| >= 3 {
        f := [NewPolygon(frontVertices, sqrt)];
      }
      if |backVertices| >= 3 {
        b := [NewPolygon(backVertices, sqrt)];
      }
      r := SplitResult([], [], f, b);
    }
  }

  /** Over classes that are never SPANNING, the or has its FRONT bit exactly when some entry is FRONT, and its BACK bit exactly when some entry is BACK. */
  lemma {:induction false} OrAllBits(ts: seq<bv2>)
    requires forall i :: 0 <= i < |ts| ==> ts[i] != SPANNING
    ensures (OrAll(ts) & FRONT == FRONT) <==> Occurs(ts, FRONT)
    ensures (OrAll(ts) & BACK == BACK) <==> Occurs(ts, BACK)
  {
    if |ts| > 0 {
      var init := ts[..|ts| - 1];
      OrAllBits(init);
      assert forall i :: 0 <= i < |init| ==> init[i] == ts[i];
      if Occurs(ts, FRONT) && !Occurs(init, FRONT) {
        assert ts[|ts| - 1] == FRONT;
      }
      if Occurs(ts, BACK) && !Occurs(init, BACK) {
        assert ts[|ts| - 1] == BACK;
      }
    }
  }

  /** The polygon's class, stated on its vertices. */
  lemma PolygonClass(plane: Plane, vs: seq<Vertex>)
    ensures var ts := Types(plane, vs);
      && (OrAll(ts) == COPLANAR <==> !Occurs(ts, FRONT) && !Occurs(ts, BACK))
      && (OrAll(ts) == FRONT <==> Occurs(ts, FRONT) && !Occurs(ts, BACK))
      && (OrAll(ts) == BACK <==> !Occurs(ts, FRONT) && Occurs(ts, BACK))
      && (OrAll(ts) == SPANNING <==> Occurs(ts, FRONT) && Occurs(ts, BACK))
  {
    var ts := Types(plane, vs);
    forall i | 0 <= i < |ts| ensures ts[i] != SPANNING {
      TypesAt(plane, vs, i);
      ClassBits(plane, vs[i].position);
      BitConstants(COPLANAR);
    }
    OrAllBits(ts);
  }

  /**
   * Routing: a polygon that does not span the plane is appended, unchanged,
   * to exactly one list: a coplanar one chosen by the orientation of its own
   * plane, `front` when it has FRONT but no BACK vertices, `back` in the
   * opposite case. A spanning polygon appends nothing to the coplanar lists
   * and at most one fragment to each of `front` and `back`.
   */
  lemma SplitRouting(plane: Plane, polygon: Polygon, sqrt: real -> real)
    requires polygon.plane.Some?
    ensures var r := Split(plane, polygon, sqrt);
      var ts := Types(plane, polygon.vertices);
      && (!Occurs(ts, FRONT) && !Occurs(ts, BACK) ==>
            if plane.normal.Dot(polygon.plane.value.normal) > 0.0
            then r == SplitResult([polygon], [], [], [])
            else r == SplitResult([], [polygon], [], []))
      && (Occurs(ts, FRONT) && !Occurs(ts, BACK) ==> r == SplitResult([], [], [polygon], []))
      && (!Occurs(ts, FRONT) && Occurs(ts, BACK) ==> r == SplitResult([], [], [], [polygon]))
      && (Occurs(ts, FRONT) && Occurs(ts, BACK) ==>
            && r.coplanarFront == [] && r.coplanarBack == []
            && |r.front| <= 1 && |r.back| <= 1
            && (|r.front| == 1 <==> |FrontVertices(plane, polygon.vertices, ts, |polygon.vertices|)| >= 3)
            && (|r.back| == 1 <==> |BackVertices(plane, polygon.vertices, ts, |polygon.vertices|)| >= 3)
            && (|r.front| == 1 ==> r.front[0].vertices == FrontVertices(plane, polygon.vertices, ts, |polygon.vertices|))
            && (|r.back| == 1 ==> r.back[0].vertices == BackVertices(plane, polygon.vertices, ts, |polygon.vertices|)))
  {
    PolygonClass(plane, polygon.vertices);
  }

  /**
   * On an edge whose ends lie strictly on opposite sides, the engine's
   * parallel-edge guard always passes (|dn| > 2 EPS), the unclamped
   * parameter already lies strictly between 0 and 1, and the inserted
   * vertex lies on the plane.
   */
  lemma CrossingOnPlane(plane: Plane, vi: Vertex, vj: Vertex)
    requires (plane.Classify(vi.position) | plane.Classify(vj.position)) == SPANNING
    ensures var dn := plane.normal.Dot(vj.position.Subtract(vi.position));
      var t := (plane.w - plane.normal.Dot(vi.position)) / dn;
      && Abs(dn) > 2.0 * EPS
      && 0.0 < t < 1.0
      && Crossing(plane, vi, vj) == Some(vi.Lerp(vj, t))
      && plane.SignedDistance(vi.Lerp(vj, t).position) == 0.0
  {
    var di := plane.SignedDistance(vi.position);
    var dj := plane.SignedDistance(vj.position);
    var dn := plane.normal.Dot(vj.position.Subtract(vi.position));
    DotSubtract(plane.normal, vj.position, vi.position);
    assert dn == dj - di;
    ClassBits(plane, vi.position);
    ClassBits(plane, vj.position);
    assert (di > EPS && dj < -EPS) || (di < -EPS && dj > EPS);
    var t := (plane.w - plane.normal.Dot(vi.position)) / dn;
    assert t * dn == -di;
    if di > EPS {
      assert t * (di - dj) == di;
      QuotientBetween(di, di - dj, t);
    } else {
      assert t * (dj - di) == -di;
      QuotientBetween(-di, dj - di, t);
    }
    LerpSignedDistance(vi, vj, t, plane.normal, plane.w);
    assert (1.0 - t) * di + t * dj == di + t * dn;
  }

  /** If 0 < a < b and t * b == a then 0 < t < 1. */
  lemma QuotientBetween(a: real, b: real, t: real)
    requires 0.0 < a < b
    requires t * b == a
    ensures 0.0 < t < 1.0
  {
    var s := t - 1.0;
    assert s * b == a - b;
  }

  /** Every vertex of a front fragment lies on the front side within EPS. */
  lemma {:induction false} FrontFragmentSide(plane: Plane, vs: seq<Vertex>, n: nat)
    requires n <= |vs|
    ensures forall v :: v in FrontVertices(plane, vs, Types(plane, vs), n) ==> plane.SignedDistance(v.position) >= -EPS
  {
    if n > 0 {
      var ts := Types(plane, vs);
      FrontFragmentSide(plane, vs, n - 1);
      EdgeCutOnPlane(plane, vs, n - 1);
      TypesAt(plane, vs, n - 1);
    }
  }

  /** Every vertex of a back fragment lies on the back side within EPS. */
  lemma {:induction false} BackFragmentSide(plane: Plane, vs: seq<Vertex>, n: nat)
    requires n <= |vs|
    ensures forall v :: v in BackVertices(plane, vs, Types(plane, vs), n) ==> plane.SignedDistance(v.position) <= EPS
  {
    if n > 0 {
      var ts := Types(plane, vs);
      BackFragmentSide(plane, vs, n - 1);
      EdgeCutOnPlane(plane, vs, n - 1);
      TypesAt(plane, vs, n - 1);
    }
  }

  /** Every inserted vertex lies on the plane. */
  lemma EdgeCutOnPlane(plane: Plane, vs: seq<Vertex>, i: nat)
    requires i < |vs|
    ensures forall v :: v in EdgeCut(plane, vs, Types(plane, vs), i) ==> plane.SignedDistance(v.position) == 0.0
  {
    var ts := Types(plane, vs);
    var j := (i + 1) % |vs|;
    if (ts[i] | ts[j]) == SPANNING {
      TypesAt(plane, vs, i);
      TypesAt(plane, vs, j);
      CrossingOnPlane(plane, vs[i], vs[j]);
    }
  }

  /** How many of the first n classes differ from c. */
  function CountOther(ts: seq<bv2>, c: bv2, n: nat): nat
    requires n <= |ts|
  {
    if n == 0 then 0 else CountOther(ts, c, n - 1) + (if ts[n - 1] != c then 1 else 0)
  }

  /** How many vertices the first n edges insert. */
  function CutCount(plane: Plane, vs: seq<Vertex>, ts: seq<bv2>, n: nat): nat
    requires |ts| == |vs| && n <= |vs|
  {
    if n == 0 then 0 else CutCount(plane, vs, ts, n - 1) + |EdgeCut(plane, vs, ts, n - 1)|
  }

  /**
   * Fragment sizes: the front fragment has one vertex per non-BACK vertex
   * and the back fragment one per non-FRONT vertex, and each has one more
   * per inserted crossing, so both fragments gain the same crossings.
   */
  lemma {:induction false} FragmentCounts(plane: Plane, vs: seq<Vertex>, ts: seq<bv2>, n: nat)
    requires |ts| == |vs| && n <= |vs|
    ensures |FrontVertices(plane, vs, ts, n)| == CountOther(ts, BACK, n) + CutCount(plane, vs, ts, n)
    ensures |BackVertices(plane, vs, ts, n)| == CountOther(ts, FRONT, n) + CutCount(plane, vs, ts, n)
  {
    if n > 0 {
      FragmentCounts(plane, vs, ts, n - 1);
      assert |EdgeCut(plane, vs, ts, n - 1)| <= 1;
    }
  }
}
