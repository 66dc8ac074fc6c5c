/**
 * CSG: a solid as a soup of polygons. `union` and `subtract` run fixed
 * sequences of BSP operations on trees built from clones of the operands;
 * `fromGeometry` and `toGeometry` convert between the soup and a flat list
 * of triangle coordinates.
 *
 * A geometry's position buffer is a `seq<real>` holding x, y, z for each
 * entry; its optional index buffer is a `seq<nat>` of entry numbers.
 */
module Csg {
  import opened Wrappers
  import opened Vectors
  import opened Vertices
  import opened Planes
  import opened Polygons
  import opened BspTrees
  import opened Bsp

  datatype CSG = CSG(polygons: seq<Polygon>) {

    /** `clone`: a new soup with a copy of every polygon, in the same order. */
    function Clone(sqrt: real -> real): (r: CSG)
      ensures |r.polygons| == |polygons|
      ensures forall i :: 0 <= i < |polygons| ==> |r.polygons[i].vertices| == |polygons[i].vertices|
      ensures forall i, j :: 0 <= i < |polygons| && 0 <= j < |polygons[i].vertices| ==>
        r.polygons[i].vertices[j].position == polygons[i].vertices[j].position
    {
      CSG(CloneAll(polygons, sqrt))
    }

    /**
     * `union`: build a tree from a clone of each operand and run the union
     * sequence on them. `fuel` bounds the depth of the three builds.
     */
    method Union(other: CSG, sqrt: real -> real, ghost fuel: nat) returns (r: CSG)
      requires UnionTree(polygons, other.polygons, sqrt, fuel).Some?
      ensures r.polygons == AllPolygons(UnionTree(polygons, other.polygons, sqrt, fuel).value)
    {
      var a, b := NewOperands(this, other, sqrt, fuel);
      Combine(a, b, sqrt, fuel);
      var ps := a.AllPolygons();
      r := CSG(ps);
    }

    /** `subtract`: the union sequence run on the inverted first tree, which is inverted back at the end. */
    method Subtract(other: CSG, sqrt: real -> real, ghost fuel: nat) returns (r: CSG)
      requires SubtractTree(polygons, other.polygons, sqrt, fuel).Some?
      ensures r.polygons == AllPolygons(SubtractTree(polygons, other.polygons, sqrt, fuel).value)
    {
      var a, b := NewOperands(this, other, sqrt, fuel);
      CombineInverted(a, b, sqrt, fuel);
      var ps := a.AllPolygons();
      r := CSG(ps);
    }

    /** `toGeometry`: the fan triangles of every polygon that has a plane, as flat coordinates. */
    method ToGeometry() returns (positions: seq<real>)
      ensures positions == Geometry(polygons)
    {
      positions := [];
      for k := 0 to |polygons|
        invariant positions == Geometry(polygons[..k])
      {
        assert polygons[..k + 1][..k] == polygons[..k];
        var polygon := polygons[k];
        if polygon.plane.Some? {
          var fan := FanOf(polygon.vertices);
          positions := positions + fan;
        }
      }
      assert polygons[..|polygons|] == polygons;
    }
  }

  /** The two trees `union` and `subtract` start from: `new BSPNode(x.clone().polygons)` for each operand. */
  method NewOperands(x: CSG, y: CSG, sqrt: real -> real, ghost fuel: nat) returns (a: BSPNode, b: BSPNode)
    requires BuildTree(EmptyTree(), x.Clone(sqrt).polygons, sqrt, fuel).Some?
    requires BuildTree(EmptyTree(), y.Clone(sqrt).polygons, sqrt, fuel).Some?
    ensures a.Valid() && b.Valid() && fresh(a.Repr) && fresh(b.Repr) && a.Repr !! b.Repr
    ensures a.Model() == BuildTree(EmptyTree(), x.Clone(sqrt).polygons, sqrt, fuel).value
    ensures b.Model() == BuildTree(EmptyTree(), y.Clone(sqrt).polygons, sqrt, fuel).value
  {
    a := new BSPNode(Some(x.Clone(sqrt).polygons), sqrt, fuel);
    b := new BSPNode(Some(y.Clone(sqrt).polygons), sqrt, fuel);
  }

  /** `a.invert()`, the sequence shared with `union`, and `a.invert()` again. */
  method CombineInverted(a: BSPNode, b: BSPNode, sqrt: real -> real, ghost fuel: nat)
    requires a.Valid() && b.Valid() && a.Repr !! b.Repr
    requires CombineTrees(InvertTree(a.Model()), b.Model(), sqrt, fuel).Some?
    modifies a.Repr, b.Repr
    ensures a.Valid() && fresh(a.Repr - old(a.Repr))
    ensures a.Model() == InvertTree(CombineTrees(InvertTree(old(a.Model())), old(b.Model()), sqrt, fuel).value)
  {
    a.Invert();
    CombineThenInvert(a, b, sqrt, fuel);
  }

  /** The shared sequence on `a` and `b`, then `a.invert()`. */
  method CombineThenInvert(a: BSPNode, b: BSPNode, sqrt: real -> real, ghost fuel: nat)
    requires a.Valid() && b.Valid() && a.Repr !! b.Repr
    requires CombineTrees(a.Model(), b.Model(), sqrt, fuel).Some?
    modifies a.Repr, b.Repr
    ensures a.Valid() && fresh(a.Repr - old(a.Repr))
    ensures a.Model() == InvertTree(CombineTrees(old(a.Model()), old(b.Model()), sqrt, fuel).value)
  {
    Combine(a, b, sqrt, fuel);
    a.Invert();
  }

  /** The sequence shared by `union` and `subtract`, run on two separate trees; `a` holds the result. */
  method Combine(a: BSPNode, b: BSPNode, sqrt: real -> real, ghost fuel: nat)
    requires a.Valid() && b.Valid() && a.Repr !! b.Repr
    requires CombineTrees(a.Model(), b.Model(), sqrt, fuel).Some?
    modifies a.Repr, b.Repr
    ensures a.Valid() && fresh(a.Repr - old(a.Repr))
    ensures a.Model() == CombineTrees(old(a.Model()), old(b.Model()), sqrt, fuel).value
  {
    a.ClipTo(b, sqrt);
    ClipOtherAndBuild(a, b, sqrt, fuel);
  }

  /** The steps after `a.clipTo(b)`: clip `b` twice against `a`, then build `a` with what is left of `b`. */
  method ClipOtherAndBuild(a: BSPNode, b: BSPNode, sqrt: real -> real, ghost fuel: nat)
    requires a.Valid() && b.Valid() && a.Repr !! b.Repr
    requires BuildTree(a.Model(), AllPolygons(InvertTree(ClipToTree(InvertTree(ClipToTree(b.Model(), a.Model(), sqrt)), a.Model(), sqrt))), sqrt, fuel).Some?
    modifies a.Repr, b.Repr
    ensures a.Valid() && fresh(a.Repr - old(a.Repr))
    ensures a.Model() == BuildTree(old(a.Model()), AllPolygons(InvertTree(ClipToTree(InvertTree(ClipToTree(old(b.Model()), old(a.Model()), sqrt)), old(a.Model()), sqrt))), sqrt, fuel).value
  {
    ClipOther(b, a, sqrt);
    BuildFromOther(a, b, sqrt, fuel);
  }

  /** `a.build(b.allPolygons())`. */
  method BuildFromOther(a: BSPNode, b: BSPNode, sqrt: real -> real, ghost fuel: nat)
    requires a.Valid() && b.Valid() && a.Repr !! b.Repr
    requires BuildTree(a.Model(), AllPolygons(b.Model()), sqrt, fuel).Some?
    modifies a.Repr
    ensures a.Valid() && fresh(a.Repr - old(a.Repr))
    ensures a.Model() == BuildTree(old(a.Model()), AllPolygons(old(b.Model())), sqrt, fuel).value
  {
    var all := b.AllPolygons();
    a.Build(all, sqrt, fuel);
  }

  /** `b.clipTo(a)`, `b.invert()`, `b.clipTo(a)`, `b.invert()`; `a` is left as it is. */
  method ClipOther(b: BSPNode, a: BSPNode, sqrt: real -> real)
    requires a.Valid() && b.Valid() && a.Repr !! b.Repr
    modifies b.Repr
    ensures b.Valid() && b.Repr == old(b.Repr)
    ensures a.Valid() && a.Model() == old(a.Model())
    ensures b.Model() == InvertTree(ClipToTree(InvertTree(ClipToTree(old(b.Model()), a.Model(), sqrt)), a.Model(), sqrt))
  {
    b.ClipTo(a, sqrt);
    ClipInverted(b, a, sqrt);
  }

  /** `b.invert()`, `b.clipTo(a)`, `b.invert()`. */
  method ClipInverted(b: BSPNode, a: BSPNode, sqrt: real -> real)
    requires a.Valid() && b.Valid() && a.Repr !! b.Repr
    modifies b.Repr
    ensures b.Valid() && b.Repr == old(b.Repr)
    ensures a.Valid() && a.Model() == old(a.Model())
    ensures b.Model() == InvertTree(ClipToTree(InvertTree(old(b.Model())), a.Model(), sqrt))
  {
    b.Invert();
    b.ClipTo(a, sqrt);
    b.Invert();
  }

  /**
   * The sequence `a.clipTo(b)`, `b.clipTo(a)`, `b.invert()`, `b.clipTo(a)`,
   * `b.invert()`, `a.build(b.allPolygons())`, on values; None when the
   * build needs more than `fuel` levels.
   */
  function CombineTrees(a: Tree, b: Tree, sqrt: real -> real, fuel: nat): Option<Tree>
  {
    var a1 := ClipToTree(a, b, sqrt);
    var b1 := ClipToTree(b, a1, sqrt);
    var b2 := InvertTree(b1);
    var b3 := ClipToTree(b2, a1, sqrt);
    var b4 := InvertTree(b3);
    BuildTree(a1, AllPolygons(b4), sqrt, fuel)
  }

  /** The tree built from a clone of a soup. */
  function SoupTree(ps: seq<Polygon>, sqrt: real -> real, fuel: nat): Option<Tree>
  {
    BuildTree(EmptyTree(), CSG(ps).Clone(sqrt).polygons, sqrt, fuel)
  }

  /** The tree whose polygons `union` returns. */
  function UnionTree(a: seq<Polygon>, b: seq<Polygon>, sqrt: real -> real, fuel: nat): Option<Tree>
  {
    var ta := SoupTree(a, sqrt, fuel);
    var tb := SoupTree(b, sqrt, fuel);
    if ta.None? || tb.None? then None
    else CombineTrees(ta.value, tb.value, sqrt, fuel)
  }

  /** The tree whose polygons `subtract` returns. */
  function SubtractTree(a: seq<Polygon>, b: seq<Polygon>, sqrt: real -> real, fuel: nat): Option<Tree>
  {
    var ta := SoupTree(a, sqrt, fuel);
    var tb := SoupTree(b, sqrt, fuel);
    if ta.None? || tb.None? then None
    else
      var r := CombineTrees(InvertTree(ta.value), tb.value, sqrt, fuel);
      if r.None? then None else Some(InvertTree(r.value))
  }

  /** Union with an empty soup gives the first operand's tree unchanged. */
  lemma UnionEmpty(a: seq<Polygon>, sqrt: real -> real, fuel: nat)
    requires SoupTree(a, sqrt, fuel).Some?
    ensures UnionTree(a, [], sqrt, fuel) == SoupTree(a, sqrt, fuel)
  {
    var ta := SoupTree(a, sqrt, fuel).value;
    assert SoupTree([], sqrt, fuel) == Some(EmptyTree());
    ClipToNothing(ta, sqrt);
    CombineWithEmpty(ta, sqrt, fuel);
  }

  /** Subtracting an empty soup gives the first operand's tree unchanged: its two inversions cancel. */
  lemma SubtractEmpty(a: seq<Polygon>, sqrt: real -> real, fuel: nat)
    requires SoupTree(a, sqrt, fuel).Some?
    ensures SubtractTree(a, [], sqrt, fuel) == SoupTree(a, sqrt, fuel)
  {
    var ta := SoupTree(a, sqrt, fuel).value;
    assert SoupTree([], sqrt, fuel) == Some(EmptyTree());
    ClipToNothing(InvertTree(ta), sqrt);
    CombineWithEmpty(InvertTree(ta), sqrt, fuel);
    InvertInvolution(ta);
  }

  /** Against an empty second tree, the union sequence leaves the first tree as it is. */
  lemma CombineWithEmpty(t: Tree, sqrt: real -> real, fuel: nat)
    ensures CombineTrees(t, EmptyTree(), sqrt, fuel) == Some(t)
  {
    ClipToNothing(t, sqrt);
    ClipEmpty(t, sqrt);
    assert ClipToTree(EmptyTree(), t, sqrt) == EmptyTree();
    assert InvertTree(EmptyTree()) == EmptyTree();
    BuildNoValid(t, [], sqrt, fuel);
  }

  /** Every piece of the first operand that survives clipping by the second is in the union. */
  lemma UnionKeepsClipped(a: seq<Polygon>, b: seq<Polygon>, sqrt: real -> real, fuel: nat)
    requires UnionTree(a, b, sqrt, fuel).Some?
    ensures var ta := SoupTree(a, sqrt, fuel).value;
      var tb := SoupTree(b, sqrt, fuel).value;
      multiset(AllPolygons(ClipToTree(ta, tb, sqrt))) <= multiset(AllPolygons(UnionTree(a, b, sqrt, fuel).value))
  {
    var ta := SoupTree(a, sqrt, fuel).value;
    var tb := SoupTree(b, sqrt, fuel).value;
    CombineKeepsClipped(ta, tb, sqrt, fuel);
  }

  /** Every piece of the inverted first operand that survives clipping by the second is in the inverse of the difference. */
  lemma SubtractKeepsClipped(a: seq<Polygon>, b: seq<Polygon>, sqrt: real -> real, fuel: nat)
    requires SubtractTree(a, b, sqrt, fuel).Some?
    ensures var ta := SoupTree(a, sqrt, fuel).value;
      var tb := SoupTree(b, sqrt, fuel).value;
      multiset(AllPolygons(ClipToTree(InvertTree(ta), tb, sqrt)))
        <= multiset(AllPolygons(InvertTree(SubtractTree(a, b, sqrt, fuel).value)))
  {
    var ta := SoupTree(a, sqrt, fuel).value;
    var tb := SoupTree(b, sqrt, fuel).value;
    CombineKeepsClipped(InvertTree(ta), tb, sqrt, fuel);
    InvertInvolution(CombineTrees(InvertTree(ta), tb, sqrt, fuel).value);
  }

  /** The final build of the union sequence only adds to the clipped first tree. */
  lemma CombineKeepsClipped(a: Tree, b: Tree, sqrt: real -> real, fuel: nat)
    requires CombineTrees(a, b, sqrt, fuel).Some?
    ensures Extends(ClipToTree(a, b, sqrt), CombineTrees(a, b, sqrt, fuel).value)
    ensures multiset(AllPolygons(ClipToTree(a, b, sqrt))) <= multiset(AllPolygons(CombineTrees(a, b, sqrt, fuel).value))
  {
    var a1 := ClipToTree(a, b, sqrt);
    var b4 := InvertTree(ClipToTree(InvertTree(ClipToTree(b, a1, sqrt)), a1, sqrt));
    BuildExtends(a1, AllPolygons(b4), sqrt, fuel);
    ExtendsAllPolygons(a1, CombineTrees(a, b, sqrt, fuel).value);
  }

  /** More fuel than a union needs does not change its result. */
  lemma UnionFuel(a: seq<Polygon>, b: seq<Polygon>, sqrt: real -> real, fuel: nat, more: nat)
    requires UnionTree(a, b, sqrt, fuel).Some? && fuel <= more
    ensures UnionTree(a, b, sqrt, more) == UnionTree(a, b, sqrt, fuel)
  {
    SoupFuel(a, sqrt, fuel, more);
    SoupFuel(b, sqrt, fuel, more);
    CombineFuel(SoupTree(a, sqrt, fuel).value, SoupTree(b, sqrt, fuel).value, sqrt, fuel, more);
  }

  /** More fuel than a subtraction needs does not change its result. */
  lemma SubtractFuel(a: seq<Polygon>, b: seq<Polygon>, sqrt: real -> real, fuel: nat, more: nat)
    requires SubtractTree(a, b, sqrt, fuel).Some? && fuel <= more
    ensures SubtractTree(a, b, sqrt, more) == SubtractTree(a, b, sqrt, fuel)
  {
    SoupFuel(a, sqrt, fuel, more);
    SoupFuel(b, sqrt, fuel, more);
    CombineFuel(InvertTree(SoupTree(a, sqrt, fuel).value), SoupTree(b, sqrt, fuel).value, sqrt, fuel, more);
  }

  lemma SoupFuel(ps: seq<Polygon>, sqrt: real -> real, fuel: nat, more: nat)
    requires SoupTree(ps, sqrt, fuel).Some? && fuel <= more
    ensures SoupTree(ps, sqrt, more) == SoupTree(ps, sqrt, fuel)
  {
    BuildFuelMonotone(EmptyTree(), CSG(ps).Clone(sqrt).polygons, sqrt, fuel, more);
  }

  lemma CombineFuel(a: Tree, b: Tree, sqrt: real -> real, fuel: nat, more: nat)
    requires CombineTrees(a, b, sqrt, fuel).Some? && fuel <= more
    ensures CombineTrees(a, b, sqrt, more) == CombineTrees(a, b, sqrt, fuel)
  {
    var a1 := ClipToTree(a, b, sqrt);
    var b4 := InvertTree(ClipToTree(InvertTree(ClipToTree(b, a1, sqrt)), a1, sqrt));
    BuildFuelMonotone(a1, AllPolygons(b4), sqrt, fuel, more);
  }

  // fromGeometry

  /**
   * Coordinate j of a position buffer. A read past the end is `undefined`,
   * which the `Vector3` constructor's default arguments turn into 0.
   */
  function Coord(position: seq<real>, j: int): (r: real)
    ensures 0 <= j < |position| ==> r == position[j]
    ensures !(0 <= j < |position|) ==> r == 0.0
  {
    if 0 <= j < |position| then position[j] else 0.0
  }

  /** The vertex at entry `a` of a position buffer: coordinates 3a, 3a + 1 and 3a + 2, each 0 past the end. */
  function PositionVertex(position: seq<real>, a: nat): (v: Vertex)
    ensures 3 * a + 2 < |position| ==>
      v.position.x == position[3 * a] && v.position.y == position[3 * a + 1] && v.position.z == position[3 * a + 2]
    ensures 3 * a >= |position| ==> v.position == Vector3(0.0, 0.0, 0.0)
  {
    Vertex(Vector3(Coord(position, 3 * a), Coord(position, 3 * a + 1), Coord(position, 3 * a + 2)))
  }

  /**
   * The vertex named by entry j of an index buffer. Past the end the index
   * is `undefined`, the coordinate offsets are NaN and every read gives
   * `undefined`, so the vertex is the origin.
   */
  function IndexVertex(position: seq<real>, index: seq<nat>, j: nat): (v: Vertex)
    ensures j < |index| ==> v == PositionVertex(position, index[j])
    ensures j >= |index| ==> v.position == Vector3(0.0, 0.0, 0.0)
  {
    if j < |index| then PositionVertex(position, index[j]) else Vertex(Vector3(0.0, 0.0, 0.0))
  }

  /** The triangle of index entries j, j + 1 and j + 2. */
  function Triangle(position: seq<real>, index: seq<nat>, j: nat): seq<Vertex>
  {
    [IndexVertex(position, index, j), IndexVertex(position, index, j + 1), IndexVertex(position, index, j + 2)]
  }

  /** The triangle of the nine coordinates starting at i, each 0 past the end. */
  function TriangleAt(position: seq<real>, i: nat): seq<Vertex>
  {
    [Vertex(Vector3(Coord(position, i), Coord(position, i + 1), Coord(position, i + 2))),
     Vertex(Vector3(Coord(position, i + 3), Coord(position, i + 4), Coord(position, i + 5))),
     Vertex(Vector3(Coord(position, i + 6), Coord(position, i + 7), Coord(position, i + 8)))]
  }

  /** A buffer that ends six numbers into a group gives the triangle of those two points and the origin. */
  lemma PlainTail(position: seq<real>, i: nat)
    requires |position| == i + 6
    ensures TriangleAt(position, i)
      == [Vertex(Vector3(position[i], position[i + 1], position[i + 2])),
          Vertex(Vector3(position[i + 3], position[i + 4], position[i + 5])),
          Vertex(Vector3(0.0, 0.0, 0.0))]
  {
  }

  /** `if (polygon.plane) csg.polygons.push(polygon)` for the polygon of `vs`. */
  function KeepPlanar(vs: seq<Vertex>, sqrt: real -> real): (r: seq<Polygon>)
    ensures |r| <= 1
    ensures |r| == 1 <==> NewPolygon(vs, sqrt).plane.Some?
    ensures |r| == 1 ==> r[0].vertices == vs && r[0].plane.Some?
  {
    var p := NewPolygon(vs, sqrt);
    if p.plane.Some? then [p] else []
  }

  /** The number of passes of `for (i = 0; i < n; i += step)`: n / step rounded up. */
  function Passes(n: nat, step: nat): nat
    requires step > 0
  {
    (n + step - 1) / step
  }

  /** A loop that stops at the first multiple k * step reaching n runs Passes(n, step) times. */
  lemma PassesExit(n: nat, step: nat, k: nat)
    requires step > 0 && n <= step * k < n + step
    ensures Passes(n, step) == k
  {
    var q := Passes(n, step);
    assert step * q <= n + step - 1 < step * q + step;
    if q < k {
      MulLe(q + 1, k, step);
    } else if q > k {
      MulLe(k + 1, q, step);
    }
  }

  lemma MulLe(a: nat, b: nat, c: nat)
    requires a <= b
    ensures c * a <= c * b
  {
    assert c * b - c * a == c * (b - a);
  }

  /** The polygons kept from the first k index triples. */
  function IndexedSoup(position: seq<real>, index: seq<nat>, k: nat, sqrt: real -> real): seq<Polygon>
  {
    if k == 0 then []
    else IndexedSoup(position, index, k - 1, sqrt) + KeepPlanar(Triangle(position, index, 3 * k - 3), sqrt)
  }

  lemma IndexedSoupStep(position: seq<real>, index: seq<nat>, k: nat, sqrt: real -> real)
    ensures IndexedSoup(position, index, k + 1, sqrt)
      == IndexedSoup(position, index, k, sqrt) + KeepPlanar(Triangle(position, index, 3 * k), sqrt)
  {
    assert 3 * (k + 1) - 3 == 3 * k;
  }

  /** The polygons kept from the first k groups of nine coordinates. */
  function PlainSoup(position: seq<real>, k: nat, sqrt: real -> real): seq<Polygon>
  {
    if k == 0 then []
    else PlainSoup(position, k - 1, sqrt) + KeepPlanar(TriangleAt(position, 9 * k - 9), sqrt)
  }

  lemma PlainSoupStep(position: seq<real>, k: nat, sqrt: real -> real)
    ensures PlainSoup(position, k + 1, sqrt) == PlainSoup(position, k, sqrt) + KeepPlanar(TriangleAt(position, 9 * k), sqrt)
  {
    assert 9 * (k + 1) - 9 == 9 * k;
  }

  /**
   * `CSG.fromGeometry`: one candidate triangle per index triple when there
   * is an index buffer, otherwise one per nine coordinates; a candidate
   * whose plane is degenerate is dropped. A last, incomplete group is read
   * with zeros for the missing numbers.
   */
  method FromGeometry(position: seq<real>, index: Option<seq<nat>>, sqrt: real -> real) returns (csg: CSG)
    ensures index.Some? ==> csg.polygons == IndexedSoup(position, index.value, Passes(|index.value|, 3), sqrt)
    ensures index.None? ==> csg.polygons == PlainSoup(position, Passes(|position|, 9), sqrt)
  {
    var ps: seq<Polygon>;
    if index.Some? {
      ps := IndexedPolygons(position, index.value, sqrt);
    } else {
      ps := PlainPolygons(position, sqrt);
    }
    csg := CSG(ps);
  }

  /** The loop of fromGeometry over an index buffer, three indices at a time. */
  method IndexedPolygons(position: seq<real>, idx: seq<nat>, sqrt: real -> real) returns (ps: seq<Polygon>)
    ensures ps == IndexedSoup(position, idx, Passes(|idx|, 3), sqrt)
  {
    ps := [];
    var i := 0;
    ghost var k := 0;
    while i < |idx|
      invariant i == 3 * k && i <= |idx| + 2
      invariant ps == IndexedSoup(position, idx, k, sqrt)
    {
      ps := IndexedStep(ps, position, idx, i, k, sqrt);
      i, k := i + 3, k + 1;
    }
    PassesExit(|idx|, 3, k);
  }

  /** The loop of fromGeometry without an index buffer, nine coordinates at a time. */
  method PlainPolygons(position: seq<real>, sqrt: real -> real) returns (ps: seq<Polygon>)
    ensures ps == PlainSoup(position, Passes(|position|, 9), sqrt)
  {
    ps := [];
    var i := 0;
    ghost var k := 0;
    while i < |position|
      invariant i == 9 * k && i <= |position| + 8
      invariant ps == PlainSoup(position, k, sqrt)
    {
      ps := PlainStep(ps, position, i, k, sqrt);
      i, k := i + 9, k + 1;
    }
    PassesExit(|position|, 9, k);
  }

  /** One pass of the indexed loop: the triangle of indices i, i + 1 and i + 2. */
  method IndexedStep(ps: seq<Polygon>, position: seq<real>, idx: seq<nat>, i: nat, ghost k: nat, sqrt: real -> real)
    returns (r: seq<Polygon>)
    requires i == 3 * k
    requires ps == IndexedSoup(position, idx, k, sqrt)
    ensures r == IndexedSoup(position, idx, k + 1, sqrt)
  {
    var vs := Triangle(position, idx, i);
    IndexedSoupStep(position, idx, k, sqrt);
    r := PushIfPlanar(ps, vs, sqrt);
  }

  /** One pass of the plain loop: the triangle of the nine coordinates from i. */
  method PlainStep(ps: seq<Polygon>, position: seq<real>, i: nat, ghost k: nat, sqrt: real -> real)
    returns (r: seq<Polygon>)
    requires i == 9 * k
    requires ps == PlainSoup(position, k, sqrt)
    ensures r == PlainSoup(position, k + 1, sqrt)
  {
    var vs := [Vertex(Vector3(Coord(position, i), Coord(position, i + 1), Coord(position, i + 2))),
               Vertex(Vector3(Coord(position, i + 3), Coord(position, i + 4), Coord(position, i + 5))),
               Vertex(Vector3(Coord(position, i + 6), Coord(position, i + 7), Coord(position, i + 8)))];
    PlainSoupStep(position, k, sqrt);
    r := PushIfPlanar(ps, vs, sqrt);
  }

  /** `const polygon = new Polygon(vs); if (polygon.plane) csg.polygons.push(polygon)`. */
  method PushIfPlanar(ps: seq<Polygon>, vs: seq<Vertex>, sqrt: real -> real) returns (r: seq<Polygon>)
    ensures r == ps + KeepPlanar(vs, sqrt)
  {
    r := ps;
    var polygon := NewPolygon(vs, sqrt);
    if polygon.plane.Some? {
      r := r + [polygon];
    }
  }

  /** Every polygon fromGeometry keeps is a triangle with a plane, and there is at most one per index triple. */
  lemma {:induction false} IndexedSoupShape(position: seq<real>, index: seq<nat>, k: nat, sqrt: real -> real)
    ensures |IndexedSoup(position, index, k, sqrt)| <= k
    ensures forall p :: p in IndexedSoup(position, index, k, sqrt) ==> |p.vertices| == 3 && p.plane.Some?
  {
    if k > 0 {
      IndexedSoupShape(position, index, k - 1, sqrt);
      AppendKept(IndexedSoup(position, index, k - 1, sqrt), Triangle(position, index, 3 * k - 3), sqrt);
    }
  }

  /** Every polygon fromGeometry keeps is a triangle with a plane, and there is at most one per nine coordinates. */
  lemma {:induction false} PlainSoupShape(position: seq<real>, k: nat, sqrt: real -> real)
    ensures |PlainSoup(position, k, sqrt)| <= k
    ensures forall p :: p in PlainSoup(position, k, sqrt) ==> |p.vertices| == 3 && p.plane.Some?
  {
    if k > 0 {
      PlainSoupShape(position, k - 1, sqrt);
      AppendKept(PlainSoup(position, k - 1, sqrt), TriangleAt(position, 9 * k - 9), sqrt);
    }
  }

  /** Appending what KeepPlanar keeps of a triangle adds at most one triangle with a plane. */
  lemma AppendKept(ps: seq<Polygon>, vs: seq<Vertex>, sqrt: real -> real)
    requires |vs| == 3
    ensures |ps + KeepPlanar(vs, sqrt)| <= |ps| + 1
    ensures (forall p :: p in ps ==> |p.vertices| == 3 && p.plane.Some?) ==>
      forall p :: p in ps + KeepPlanar(vs, sqrt) ==> |p.vertices| == 3 && p.plane.Some?
  {
  }

  // toGeometry

  function Coords(v: Vertex): seq<real>
  {
    [v.position.x, v.position.y, v.position.z]
  }

  /** The fan triangles (v0, vi, vi+1) for 1 <= i < j, as flat coordinates. */
  function FanPrefix(vs: seq<Vertex>, j: nat): (r: seq<real>)
    requires j <= 1 || j < |vs|
  {
    if j <= 1 then []
    else FanPrefix(vs, j - 1) + Coords(vs[0]) + Coords(vs[j - 1]) + Coords(vs[j])
  }

  /** The fan triangulation of a polygon, empty below three vertices. */
  function Fan(vs: seq<Vertex>): seq<real>
  {
    if |vs| < 3 then [] else FanPrefix(vs, |vs| - 1)
  }

  /** What `toGeometry` writes for a soup: the fans of the polygons that have a plane, in order. */
  function Geometry(ps: seq<Polygon>): seq<real>
  {
    if |ps| == 0 then []
    else
      var last := ps[|ps| - 1];
      Geometry(ps[..|ps| - 1]) + (if last.plane.Some? then Fan(last.vertices) else [])
  }

  /** The number of fan triangles: n - 2 for every polygon with a plane and n >= 3 vertices. */
  function FanCount(ps: seq<Polygon>): nat
  {
    if |ps| == 0 then 0
    else
      var last := ps[|ps| - 1];
      FanCount(ps[..|ps| - 1]) + (if last.plane.Some? && |last.vertices| >= 3 then |last.vertices| - 2 else 0)
  }

  /** The inner loop of `toGeometry`: `for (i = 1; i < n - 1; i++)` pushes v0, vi and vi+1. */
  method FanOf(vs: seq<Vertex>) returns (positions: seq<real>)
    ensures positions == Fan(vs)
  {
    positions := [];
    var i := 1;
    while i < |vs| - 1
      invariant 1 <= i <= if |vs| >= 2 then |vs| - 1 else 1
      invariant positions == FanPrefix(vs, i)
    {
      var v0, v1, v2 := vs[0].position, vs[i].position, vs[i + 1].position;
      positions := positions + [v0.x, v0.y, v0.z];
      positions := positions + [v1.x, v1.y, v1.z];
      positions := positions + [v2.x, v2.y, v2.z];
      i := i + 1;
    }
  }

  /** A fan of j - 1 triangles has 9 (j - 1) coordinates. */
  lemma {:induction false} FanPrefixLength(vs: seq<Vertex>, j: nat)
    requires j <= 1 || j < |vs|
    ensures |FanPrefix(vs, j)| == if j <= 1 then 0 else 9 * (j - 1)
  {
    if j > 1 {
      FanPrefixLength(vs, j - 1);
    }
  }

  /** toGeometry writes nine coordinates for each of the n - 2 fan triangles of every polygon with a plane. */
  lemma {:induction false} GeometryLength(ps: seq<Polygon>)
    ensures |Geometry(ps)| == 9 * FanCount(ps)
  {
    if |ps| > 0 {
      GeometryLength(ps[..|ps| - 1]);
      var vs := ps[|ps| - 1].vertices;
      if |vs| >= 3 {
        FanPrefixLength(vs, |vs| - 1);
      }
    }
  }

  /** No group of nine coordinates is a degenerate triangle. */
  predicate NonDegenerate(position: seq<real>, k: nat, sqrt: real -> real)
  {
    forall t :: 0 <= t < k ==> NewPolygon(TriangleAt(position, 9 * t), sqrt).plane.Some?
  }

  /** toGeometry after fromGeometry reproduces a non-indexed buffer without degenerate triangles exactly. */
  lemma RoundTrip(position: seq<real>, sqrt: real -> real)
    requires |position| % 9 == 0 && NonDegenerate(position, |position| / 9, sqrt)
    ensures Geometry(PlainSoup(position, Passes(|position|, 9), sqrt)) == position
  {
    var k := |position| / 9;
    assert Passes(|position|, 9) == k;
    KeepsAll(position, k, sqrt);
    RoundTripPrefix(position, k, sqrt);
    assert position[..9 * k] == position;
  }

  /** Without degenerate triangles, fromGeometry keeps one polygon per triangle. */
  lemma {:induction false} KeepsAll(position: seq<real>, k: nat, sqrt: real -> real)
    requires NonDegenerate(position, k, sqrt)
    ensures |PlainSoup(position, k, sqrt)| == k
  {
    if k > 0 {
      var t := k - 1;
      assert NonDegenerate(position, t, sqrt);
      KeepsAll(position, t, sqrt);
      var vs := TriangleAt(position, 9 * t);
      assert NewPolygon(vs, sqrt).plane.Some?;
      assert |KeepPlanar(vs, sqrt)| == 1;
    }
  }

  /** When fromGeometry keeps all k triangles, toGeometry gives back the first 9k coordinates. */
  lemma {:induction false} RoundTripPrefix(position: seq<real>, k: nat, sqrt: real -> real)
    requires 9 * k <= |position| && |PlainSoup(position, k, sqrt)| == k
    ensures Geometry(PlainSoup(position, k, sqrt)) == position[..9 * k]
  {
    if k > 0 {
      LastKept(position, k, sqrt);
      RoundTripPrefix(position, k - 1, sqrt);
      SliceSplit(position, 9 * (k - 1), 9 * k);
    }
  }

  /** When the k-th triangle is kept along with all before it, its nine coordinates follow theirs in toGeometry. */
  lemma LastKept(position: seq<real>, k: nat, sqrt: real -> real)
    requires 0 < k && 9 * k <= |position| && |PlainSoup(position, k, sqrt)| == k
    ensures |PlainSoup(position, k - 1, sqrt)| == k - 1
    ensures Geometry(PlainSoup(position, k, sqrt)) == Geometry(PlainSoup(position, k - 1, sqrt)) + position[9 * k - 9..9 * k]
  {
    var t := k - 1;
    var q := KeptTriangle(position, t, sqrt);
    GeometryAppend(PlainSoup(position, t, sqrt), q);
    TriangleFan(position, t);
  }

  /** When the soup grows at the t-th triangle, it grows by that triangle's polygon, which has a plane. */
  lemma KeptTriangle(position: seq<real>, t: nat, sqrt: real -> real) returns (q: Polygon)
    requires 9 * t + 9 <= |position| && |PlainSoup(position, t + 1, sqrt)| == t + 1
    ensures |PlainSoup(position, t, sqrt)| == t
    ensures PlainSoup(position, t + 1, sqrt) == PlainSoup(position, t, sqrt) + [q]
    ensures q.plane.Some? && q.vertices == TriangleAt(position, 9 * t)
  {
    var kept := KeepPlanar(TriangleAt(position, 9 * t), sqrt);
    PlainSoupStep(position, t, sqrt);
    PlainSoupShape(position, t, sqrt);
    assert |kept| == 1 && kept == [kept[0]];
    q := kept[0];
  }

  lemma SliceSplit<T>(s: seq<T>, n: nat, m: nat)
    requires n <= m <= |s|
    ensures s[..m] == s[..n] + s[n..m]
  {
  }

  /** toGeometry of one more polygon appends that polygon's fan, if it has a plane. */
  lemma GeometryAppend(ps: seq<Polygon>, q: Polygon)
    ensures Geometry(ps + [q]) == Geometry(ps) + (if q.plane.Some? then Fan(q.vertices) else [])
  {
    assert (ps + [q])[..|ps|] == ps;
  }

  /** The fan of the t-th triangle of a buffer is its nine coordinates. */
  lemma TriangleFan(position: seq<real>, t: nat)
    requires 9 * t + 9 <= |position|
    ensures Fan(TriangleAt(position, 9 * t)) == position[9 * t..9 * t + 9]
  {
    var vs := TriangleAt(position, 9 * t);
    assert FanPrefix(vs, 2) == Coords(vs[0]) + Coords(vs[1]) + Coords(vs[2]);
  }
}
