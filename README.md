# Handtenna CSG core in Dafny

This project models the geometry kernel of Handtenna, a browser tool that
designs a 3D-printable base for a hand-wound loading-coil antenna. At its
heart is a small BSP-tree CSG engine (`src/lib/csg/`):

- `Vector3` and `Vertex` are value types.
- `Plane` is an oriented plane `normal . p = w`. It is built from three
  points, flips orientation, and splits polygons with a tolerance of
  `EPS = 1e-5`.
- A `Polygon` is a list of vertices plus a plane derived from the first three.
- A `BSPNode` is a mutable binary tree: `build`, `clipPolygons`, `clipTo`,
  `invert`, `allPolygons` and `clone`.
- `CSG` is a polygon soup. It converts from and to triangle buffers and runs
  the fixed `union` and `subtract` step sequences.

Two smaller pieces sit around the engine:

- The binary STL writer: an 80-byte header, a little-endian `uint32`
  triangle count, then one 50-byte record per triangle.
- The arithmetic of the model builder: the parameter derivation
  `getBuildParams` over the nut and connector tables, the layout heights, the
  lathe profile of the coil former, and the percentages of the progress
  reports.

Structure:

- The value types are datatypes whose members are functions.
- `splitPolygon` is a method proved equal to the function `Split`. Its two
  loops are methods with invariants.
- `BSPNode` is a class with a `Repr` footprint and a `Model()` of type `Tree`.
  Every method is proved to leave a tree that a function on `Tree` describes.
  The lemmas about the tree functions state what the engine promises:
  - `invert` is an involution;
  - `build` only appends;
  - `clipTo` keeps the shape;
  - and the other BSP properties listed in the table below.
- `union` and `subtract` allocate two `BSPNode`s and run the engine's step
  sequence on them.
- The STL writer fills an `array<byte>`. Each write loop is proved against a
  byte-sequence specification.

Floating point is modelled as `real`. Three foreign functions are parameters:

- `Math.sqrt` is `sqrt: real -> real`. Properties that need an exact root
  assume `ExactSqrt(sqrt)`.
- The IEEE-754 single-precision encoder is `f32: real -> 4 bytes`.
- The three.js `normalize` of the STL writer is a parameter too.

`build` has no structural measure, because splitting can make its lists grow.
Its recursion depth is bounded by a ghost `fuel`. The tree function returns
`None` when the fuel runs out, and lemmas show that more fuel never changes a
result that was reached.

## Model

| member | source | states |
|---|---|---|
| Vectors.Vector3.Negate | src/lib/csg/vector.ts:17-19 | definition: the componentwise negation |
| Vectors.Vector3.Add | src/lib/csg/vector.ts:21-23 | definition: the componentwise sum |
| Vectors.Vector3.Subtract | src/lib/csg/vector.ts:25-27 | definition: the componentwise difference |
| Vectors.Vector3.Multiply | src/lib/csg/vector.ts:29-31 | definition: every component times s |
| Vectors.Vector3.Dot | src/lib/csg/vector.ts:33-35 | definition: x v.x + y v.y + z v.z |
| Vectors.Vector3.Cross | src/lib/csg/vector.ts:37-43 | definition: the cross product, component by component |
| Vectors.Vector3.Length | src/lib/csg/vector.ts:45-47 | definition: sqrt of dot(v, v), with sqrt a parameter |
| Vectors.Vector3.Unit | src/lib/csg/vector.ts:49-52 | definition: the vector times 1 / length when length > EPS, else the zero vector |
| Vectors.Vector3.Lerp | src/lib/csg/vector.ts:54-56 | definition: this + (v - this) t |
| Vectors.Vector3.Clone | src/lib/csg/vector.ts:13-15 | the copy has the same x, y and z |
| Vectors.NegateInverse | src/lib/csg/vector.ts:17-23 | negating twice gives the vector back, and a vector plus its negation is the zero vector |
| Vectors.AddSubtractInverse | src/lib/csg/vector.ts:21-27 | add is commutative; subtracting what was added, or adding back a difference, restores the vector |
| Vectors.MultiplyDot | src/lib/csg/vector.ts:29-35 | scaling a vector by s scales its dot product with any vector by s; scaling by 1 is the identity |
| Vectors.DotSelf | src/lib/csg/vector.ts:33-35 | dot is symmetric and dot(v, v) >= 0, so the argument of length's square root is never negative |
| Vectors.DotSubtract | src/lib/csg/vector.ts:25-35 | n . (a - b) = n . a - n . b |
| Vectors.CrossOrthogonal | src/lib/csg/vector.ts:37-43 | a . (a x b) = 0, b . (a x b) = 0 and a x a is the zero vector |
| Vectors.LengthSquared | src/lib/csg/vector.ts:45-47 | with an exact square root, length is non-negative and squares to dot(v, v) |
| Vectors.ScaledToUnit | src/lib/csg/vector.ts:49-52 | a vector of positive length multiplied by 1 / length has squared length 1 |
| Vectors.UnitLength | src/lib/csg/vector.ts:49-52 | unit is the zero vector when length <= EPS; otherwise it is the vector scaled by 1 / length and has length 1 |
| Vectors.LerpEndpoints | src/lib/csg/vector.ts:54-56 | lerp(v, 0) is this vector and lerp(v, 1) is v |
| Vectors.LerpDot | src/lib/csg/vector.ts:54-56 | for every n, n . lerp(v, t) = (1 - t)(n . this) + t (n . v) |
| Vertices.Vertex.Lerp | src/lib/csg/vertex.ts:13-15 | definition: the vertex at the lerp of the two positions |
| Vertices.Vertex.Clone | src/lib/csg/vertex.ts:9-11 | the clone's position has the same components |
| Vertices.LerpEndpoints | src/lib/csg/vertex.ts:13-15 | vertex lerp at t = 0 is at this vertex's position and at t = 1 at the other's |
| Vertices.LerpSignedDistance | src/lib/csg/vertex.ts:13-15 | the signed distance of a lerped vertex to any plane is the affine combination of its endpoints' distances |
| Planes.Plane.Flip | src/lib/csg/plane.ts:31-34 | definition: negated normal and negated w, as a new value |
| Planes.Plane.SignedDistance | src/lib/csg/plane.ts:47 | definition: normal . p - w |
| Planes.Plane.Classify | src/lib/csg/plane.ts:47-48 | definition: BACK below -EPS, FRONT above EPS, COPLANAR otherwise |
| Planes.TriangleNormal | src/lib/csg/plane.ts:20 | definition: (b - a) x (c - a) |
| Planes.FromPoints | src/lib/csg/plane.ts:19-25 | definition: None when the normal's length is below EPS, else the unit normal and its dot product with a |
| Planes.Plane.Clone | src/lib/csg/plane.ts:27-29 | the clone has the same normal and offset |
| Planes.FromPointsNone | src/lib/csg/plane.ts:19-22 | with an exact square root, fromPoints gives null exactly when the squared cross product (b - a) x (c - a) is below EPS squared |
| Planes.FromPointsThrough | src/lib/csg/plane.ts:19-25 | a plane from fromPoints contains all three points: their signed distances are 0 |
| Planes.ThroughPoints | src/lib/csg/plane.ts:20-24 | every multiple of the triangle normal has the same dot product with a, b and c |
| Planes.FromPointsUnitNormal | src/lib/csg/plane.ts:20-24 | with an exact square root, a plane from fromPoints has a unit normal |
| Planes.FlipInvolution | src/lib/csg/plane.ts:31-34 | flipping twice restores the plane; flipping negates every signed distance, swaps FRONT and BACK and keeps COPLANAR |
| Planes.BitConstants | src/lib/csg/plane.ts:5-8 | or-ing COPLANAR changes no class, and FRONT or BACK is SPANNING |
| Planes.ClassBits | src/lib/csg/plane.ts:47-48 | a single point is classified FRONT, BACK or COPLANAR, never SPANNING |
| Polygons.PlaneOf | src/lib/csg/polygon.ts:11-14 | definition: fromPoints of the first three positions, None below three vertices |
| Polygons.Polygon.Flip | src/lib/csg/polygon.ts:21-24 | the vertices are reversed and keep their count; the plane is flipped, and a missing plane stays missing |
| Polygons.Polygon.Clone | src/lib/csg/polygon.ts:17-19 | same vertex count and the same positions in the same order; the plane is derived again from the copies |
| Polygons.Reverse | src/lib/csg/polygon.ts:22 | element i of the reversal is element n - 1 - i of the input |
| Polygons.NewPolygon | src/lib/csg/polygon.ts:10-15 | the plane is missing exactly when there are fewer than 3 vertices or fromPoints of the first three fails, and otherwise it is that plane |
| Polygons.NewPolygonThrough | src/lib/csg/polygon.ts:10-15 | a polygon's plane passes through its first three vertices |
| Polygons.FlipInvolution | src/lib/csg/polygon.ts:21-24 | flipping twice restores the vertex order and the plane |
| Polygons.CloneOfNew | src/lib/csg/polygon.ts:17-19 | a clone of a freshly built polygon equals it |
| Splitting.Types | src/lib/csg/plane.ts:46-51 | definition: the class of every vertex, in order; one per vertex |
| Splitting.OrAll | src/lib/csg/plane.ts:43-51 | definition: the bitwise or of the classes, starting from 0 |
| Splitting.Crossing | src/lib/csg/plane.ts:78-84 | definition: when abs(dn) > EPS, the lerp of vi to vj at t clamped to [0, 1]; otherwise none |
| Splitting.EdgeCut | src/lib/csg/plane.ts:77-85 | definition: the crossing of edge i when its two classes or to SPANNING |
| Splitting.FrontVertices | src/lib/csg/plane.ts:67-86 | definition: the edge walk's front list: non-BACK vertices and crossings |
| Splitting.BackVertices | src/lib/csg/plane.ts:67-86 | definition: the edge walk's back list: non-FRONT vertices, cloned when not BACK, and clones of the crossings |
| Splitting.Split | src/lib/csg/plane.ts:36-93 | definition: what splitPolygon appends to its four lists, case by case on the polygon type |
| Splitting.TypesAt | src/lib/csg/plane.ts:46-51 | entry i of the class list is the class of vertex i |
| Splitting.ClassifyVertices | src/lib/csg/plane.ts:43-51 | the first loop produces one class per vertex and their bitwise or |
| Splitting.OrAllBits | src/lib/csg/plane.ts:46-51 | over point classes, the or has its FRONT bit exactly when some vertex is FRONT, and likewise for BACK |
| Splitting.PolygonClass | src/lib/csg/plane.ts:46-62 | the polygon type is COPLANAR, FRONT, BACK or SPANNING exactly according to which sides its vertices occupy |
| Splitting.SplitRouting | src/lib/csg/plane.ts:53-89 | a non-spanning polygon goes unchanged to exactly one list: coplanarFront iff normal . polygon normal > 0, else coplanarBack when all vertices are coplanar, front or back otherwise; a spanning one adds nothing to the coplanar lists and at most one fragment to each of front and back, present exactly when it has 3 or more vertices |
| Splitting.SplitPolygon | src/lib/csg/plane.ts:36-93 | the method appends exactly what Split describes |
| Splitting.CutFragments | src/lib/csg/plane.ts:64-86 | the edge walk yields the front fragment (non-BACK vertices and crossings) and the back fragment (non-FRONT vertices and copies of the crossings) in vertex order |
| Splitting.CutEdge | src/lib/csg/plane.ts:67-86 | one pass adds vertex i to its side or sides and the crossing of edge i, if any, to both |
| Splitting.Fragment | src/lib/csg/plane.ts:88-89 | a fragment makes at most one polygon, exactly when it has 3 or more vertices, and that polygon has exactly those vertices |
| Splitting.FragmentCounts | src/lib/csg/plane.ts:67-86 | the front fragment has one vertex per non-BACK vertex, the back fragment one per non-FRONT vertex, and both have one more per crossing |
| Splitting.CrossingOnPlane | src/lib/csg/plane.ts:77-84 | on an edge whose ends lie strictly on opposite sides, abs(dn) > 2 EPS so the guard passes, the parameter is strictly between 0 and 1 so the clamp does nothing, and the new vertex lies on the plane |
| Splitting.EdgeCutOnPlane | src/lib/csg/plane.ts:77-84 | every inserted vertex has signed distance 0 |
| Splitting.FrontFragmentSide | src/lib/csg/plane.ts:67-86 | every vertex of the front fragment has signed distance >= -EPS |
| Splitting.BackFragmentSide | src/lib/csg/plane.ts:67-86 | every vertex of the back fragment has signed distance <= EPS |
| BspTrees.InvertTree | src/lib/csg/bsp.ts:26-34 | definition: flip every polygon and plane and swap the children, at every node |
| BspTrees.ClipPartition | src/lib/csg/bsp.ts:39-46 | definition: split each polygon with a plane into the shared front and back lists, in order |
| BspTrees.ClipPolygonsTree | src/lib/csg/bsp.ts:36-52 | definition: the polygons unchanged without a plane; else the front list clipped by the front child and the back list clipped by the back child or dropped |
| BspTrees.ClipToTree | src/lib/csg/bsp.ts:54-58 | definition: every node's polygons replaced by what the other tree's clipPolygons keeps of them |
| BspTrees.AllPolygons | src/lib/csg/bsp.ts:60-65 | definition: the node's polygons, then the front subtree's, then the back subtree's |
| BspTrees.BuildPartition | src/lib/csg/bsp.ts:75-80 | definition: the build loop's coplanar, front and back lists, with both coplanar lists going to the node |
| BspTrees.BuildTree | src/lib/csg/bsp.ts:67-91 | definition: unchanged with no valid polygon, else one level of build; None when the fuel runs out |
| BspTrees.BuildNode | src/lib/csg/bsp.ts:75-90 | definition: partition the valid polygons, then build the front and back lists into the children |
| BspTrees.NodePlane | src/lib/csg/bsp.ts:71-73 | definition: the node's plane, or a clone of the first valid polygon's plane |
| BspTrees.Assemble | src/lib/csg/bsp.ts:79-90 | definition: the node with its plane, its children and its polygons followed by the coplanar ones |
| BspTrees.BuildChild | src/lib/csg/bsp.ts:82-90 | definition: the child unchanged for an empty list, else the child or a new empty node built with the list |
| BspTrees.CloneTree | src/lib/csg/bsp.ts:17-24 | definition: clones of the plane and polygons at every node, with the children cloned |
| BspTrees.FlipAll | src/lib/csg/bsp.ts:27-29 | every resident polygon is flipped, in place in the list order, and the count is unchanged |
| BspTrees.ValidPolygons | src/lib/csg/bsp.ts:68 | the filter keeps no more polygons than it was given, all with a plane |
| BspTrees.ValidPolygonsMembers | src/lib/csg/bsp.ts:68 | a polygon is kept by the filter exactly when it is in the input and has a plane |
| BspTrees.CloneShape | src/lib/csg/bsp.ts:17-24 | a cloned tree has the same planes and children as the original, the same resident counts, and as many polygons in allPolygons |
| BspTrees.CloneAll | src/lib/csg/bsp.ts:22 | the copies are the clones of the polygons, one for one |
| BspTrees.InvertInvolution | src/lib/csg/bsp.ts:26-34 | inverting twice restores every plane, polygon and child placement |
| BspTrees.InvertCounts | src/lib/csg/bsp.ts:26-34 | invert keeps each node's polygon count, swaps front and back, and keeps the total count |
| BspTrees.ClipEmpty | src/lib/csg/bsp.ts:36-52 | clipping no polygons gives no polygons |
| BspTrees.ClipToNothing | src/lib/csg/bsp.ts:37 | clipping to a tree without a plane keeps every node's polygons, so the tree is unchanged |
| BspTrees.ClipPartitionSkips | src/lib/csg/bsp.ts:42-46 | polygons without a plane are dropped by a node with a plane |
| BspTrees.ClipToShape | src/lib/csg/bsp.ts:54-58 | clipTo keeps every plane and every child; only the polygon lists change |
| BspTrees.AllPolygonsCount | src/lib/csg/bsp.ts:60-65 | the length of allPolygons is the sum of the resident counts over all nodes |
| BspTrees.BuildNoValid | src/lib/csg/bsp.ts:67-69 | with no polygon that has a plane, build changes nothing, whatever the fuel |
| BspTrees.BuildPlane | src/lib/csg/bsp.ts:71-73 | with a valid polygon, the node ends up with its existing plane, or else the first valid polygon's plane |
| BspTrees.BuildChildren | src/lib/csg/bsp.ts:75-90 | the coplanar polygons of both orientations are appended to the node's own, and a child exists afterwards exactly when it did before or its list is non-empty |
| BspTrees.ChildShape | src/lib/csg/bsp.ts:82-90 | a built child exists exactly when it existed or its list is non-empty |
| BspTrees.BuildExtends | src/lib/csg/bsp.ts:67-91 | build only appends: planes are kept, resident polygons stay a prefix, and existing children are kept and extended |
| BspTrees.NodeExtends | src/lib/csg/bsp.ts:75-90 | one level of build with its plane chosen only appends |
| BspTrees.ChildExtends | src/lib/csg/bsp.ts:82-90 | building into a child keeps and extends an existing child |
| BspTrees.ExtendsAllPolygons | src/lib/csg/bsp.ts:60-65 | a tree that extends another contains all of its polygons (as a multiset) |
| BspTrees.BuildFuelMonotone | src/lib/csg/bsp.ts:67-91 | once build completes within some depth bound, a larger bound gives the same tree |
| BspTrees.NodeFuelMonotone | src/lib/csg/bsp.ts:75-90 | the same for one level of build |
| BspTrees.ChildFuelMonotone | src/lib/csg/bsp.ts:82-90 | the same for a child's build |
| Bsp.BSPNode.Of | src/lib/csg/bsp.ts:18-23 | the new node holds the given plane, children and polygons; its footprint is itself and the children's |
| Bsp.BSPNode.SetPlane | src/lib/csg/bsp.ts:72 | only the node's plane changes |
| Bsp.BSPNode.AttachFront | src/lib/csg/bsp.ts:83 | the front child becomes the given node and the footprint grows by it |
| Bsp.BSPNode.AttachBack | src/lib/csg/bsp.ts:88 | the back child becomes the given node and the footprint grows by it |
| Bsp.BSPNode.constructor | src/lib/csg/bsp.ts:13-15 | with polygons, the new node is the empty tree built from them; without, it is the empty tree |
| Bsp.BSPNode.Empty | src/lib/csg/bsp.ts:8-11 | a new node has no plane, no children and no polygons |
| Bsp.BSPNode.Clone | src/lib/csg/bsp.ts:17-24 | a fresh tree whose model is the clone of the old one; it has the same planes and children and as many polygons at every node |
| Bsp.BSPNode.CloneChildren | src/lib/csg/bsp.ts:20-21 | both children are cloned into disjoint fresh trees, or are null when missing |
| Bsp.BSPNode.CloneFront | src/lib/csg/bsp.ts:20 | the front child is cloned into a fresh tree, or is null when missing |
| Bsp.BSPNode.CloneBack | src/lib/csg/bsp.ts:21 | the back child is cloned into a fresh tree, or is null when missing |
| Bsp.BSPNode.Invert | src/lib/csg/bsp.ts:26-34 | the tree becomes its inversion, in place, with the same footprint |
| Bsp.BSPNode.FlipHere | src/lib/csg/bsp.ts:27-30 | the node's polygons and plane are flipped; nothing else changes |
| Bsp.BSPNode.InvertFront | src/lib/csg/bsp.ts:31 | only the front child is inverted |
| Bsp.BSPNode.InvertBack | src/lib/csg/bsp.ts:32 | only the back child is inverted |
| Bsp.BSPNode.SwapChildren | src/lib/csg/bsp.ts:33 | front and back change places |
| Bsp.BSPNode.ClipPolygons | src/lib/csg/bsp.ts:36-52 | returns what the tree function gives and changes no node |
| Bsp.BSPNode.SetPolygons | src/lib/csg/bsp.ts:55 | only the node's polygon list is replaced |
| Bsp.BSPNode.ClipTo | src/lib/csg/bsp.ts:54-58 | the tree becomes the clipped tree, in place; the other tree is unchanged |
| Bsp.BSPNode.ClipFrontTo | src/lib/csg/bsp.ts:56 | only the front subtree is clipped |
| Bsp.BSPNode.ClipBackTo | src/lib/csg/bsp.ts:57 | only the back subtree is clipped |
| Bsp.BSPNode.AllPolygons | src/lib/csg/bsp.ts:60-65 | the node's polygons, then the front subtree's, then the back subtree's; nothing is changed |
| Bsp.BSPNode.Build | src/lib/csg/bsp.ts:67-91 | the tree becomes the result of the build function; new nodes are fresh |
| Bsp.BSPNode.BuildHere | src/lib/csg/bsp.ts:71-90 | a missing plane is set to a clone of the first valid polygon's plane, then the polygons are distributed |
| Bsp.BSPNode.Distribute | src/lib/csg/bsp.ts:75-90 | the coplanar polygons are appended here and the front and back lists are built into the children |
| Bsp.BSPNode.BuildFront | src/lib/csg/bsp.ts:82-85 | a non-empty front list is built into the existing or a new front child; an empty one changes nothing |
| Bsp.BSPNode.EnsureFront | src/lib/csg/bsp.ts:83 | a missing front child becomes a new empty node |
| Bsp.BSPNode.BuildExistingFront | src/lib/csg/bsp.ts:84 | only the front child is built |
| Bsp.BSPNode.BuildBack | src/lib/csg/bsp.ts:87-90 | a non-empty back list is built into the existing or a new back child; an empty one changes nothing |
| Bsp.BSPNode.EnsureBack | src/lib/csg/bsp.ts:88 | a missing back child becomes a new empty node |
| Bsp.BSPNode.BuildExistingBack | src/lib/csg/bsp.ts:89 | only the back child is built |
| Bsp.PartitionForBuild | src/lib/csg/bsp.ts:78-80 | the loop of build collects the coplanar polygons of both orientations, the front list and the back list, in input order |
| Bsp.FlipPolygons | src/lib/csg/bsp.ts:27-29 | every polygon of the list is flipped |
| Csg.SoupTree | src/lib/csg/csg.ts:20-21 | definition: the tree built from a clone of the soup, from an empty node |
| Csg.CombineTrees | src/lib/csg/csg.ts:23-28 | definition: the six steps a.clipTo(b) to a.build(b.allPolygons()) on tree values |
| Csg.UnionTree | src/lib/csg/csg.ts:19-33 | definition: CombineTrees of the two soup trees |
| Csg.SubtractTree | src/lib/csg/csg.ts:35-51 | definition: CombineTrees with the first tree inverted before and after |
| Csg.Coord | src/lib/csg/csg.ts:74-78 | the number at j inside the buffer, 0 outside it |
| Csg.Triangle | src/lib/csg/csg.ts:60-68 | definition: the three vertices named by index entries j, j + 1 and j + 2 |
| Csg.TriangleAt | src/lib/csg/csg.ts:74-78 | definition: the three vertices of the nine numbers from i, 0 past the end |
| Csg.IndexedSoup | src/lib/csg/csg.ts:58-71 | definition: the polygons kept from the first k index triples, in order |
| Csg.PlainSoup | src/lib/csg/csg.ts:72-81 | definition: the polygons kept from the first k groups of nine numbers, in order |
| Csg.FanPrefix | src/lib/csg/csg.ts:93-101 | definition: the triangles (v0, vi, vi+1) for 1 <= i < j, as flat numbers |
| Csg.Fan | src/lib/csg/csg.ts:93-101 | definition: the fan of a polygon, empty below three vertices |
| Csg.Geometry | src/lib/csg/csg.ts:87-102 | definition: the fans of the polygons that have a plane, in order |
| Csg.CSG.Clone | src/lib/csg/csg.ts:13-17 | same polygon count, and each polygon keeps its vertex count and its positions |
| Csg.CSG.Union | src/lib/csg/csg.ts:19-33 | the result is allPolygons of the union tree: two trees built from clones, then the six-step sequence |
| Csg.CSG.Subtract | src/lib/csg/csg.ts:35-51 | the result is allPolygons of the difference tree: the same sequence applied to the inverted first tree, which is then inverted back |
| Csg.CSG.ToGeometry | src/lib/csg/csg.ts:87-103 | the output is the fan triangulation of every polygon that has a plane, in order |
| Csg.NewOperands | src/lib/csg/csg.ts:20-21 | two disjoint fresh trees, built from clones of the operands |
| Csg.Combine | src/lib/csg/csg.ts:23-28 | the first tree becomes the result of the six-step sequence |
| Csg.ClipOtherAndBuild | src/lib/csg/csg.ts:24-28 | after a.clipTo(b), the remaining steps clip b and build a from it |
| Csg.ClipOther | src/lib/csg/csg.ts:24-27 | b is clipped, inverted, clipped and inverted back; a is unchanged |
| Csg.ClipInverted | src/lib/csg/csg.ts:25-27 | b is inverted, clipped to a and inverted back; a is unchanged |
| Csg.BuildFromOther | src/lib/csg/csg.ts:28 | a is built from all of b's polygons |
| Csg.CombineInverted | src/lib/csg/csg.ts:39-46 | the first tree is inverted, combined and inverted back |
| Csg.CombineThenInvert | src/lib/csg/csg.ts:40-46 | the six steps run, then the first tree is inverted |
| Csg.UnionEmpty | src/lib/csg/csg.ts:19-33 | the union with an empty soup is the first operand's tree |
| Csg.SubtractEmpty | src/lib/csg/csg.ts:35-51 | subtracting an empty soup gives the first operand's tree; the two inversions cancel |
| Csg.CombineWithEmpty | src/lib/csg/csg.ts:23-28 | against an empty tree, the step sequence leaves the first tree as it is |
| Csg.UnionKeepsClipped | src/lib/csg/csg.ts:19-33 | every polygon of the first operand that survives clipping to the second is in the union |
| Csg.SubtractKeepsClipped | src/lib/csg/csg.ts:35-51 | every polygon of the inverted first operand that survives clipping to the second is in the inverse of the difference |
| Csg.CombineKeepsClipped | src/lib/csg/csg.ts:23-28 | the final build only adds to the clipped first tree |
| Csg.UnionFuel | src/lib/csg/csg.ts:19-33 | with more build depth than a union needs, its result is the same |
| Csg.SubtractFuel | src/lib/csg/csg.ts:35-51 | with more build depth than a subtraction needs, its result is the same |
| Csg.SoupFuel | src/lib/csg/csg.ts:20-21 | with more build depth than an operand tree needs, it is the same |
| Csg.CombineFuel | src/lib/csg/csg.ts:23-28 | with more build depth than the step sequence needs, its result is the same |
| Csg.PositionVertex | src/lib/csg/csg.ts:65-67 | vertex number a reads coordinates 3a, 3a + 1 and 3a + 2; past the end of the buffer it is the origin, as the constructor defaults make it |
| Csg.IndexVertex | src/lib/csg/csg.ts:60-67 | an index entry inside the index buffer names that position entry, and one past its end gives the origin |
| Csg.PlainTail | src/lib/csg/csg.ts:73-78 | a plain buffer that ends six numbers into a group yields the triangle of its two last points and the origin |
| Csg.KeepPlanar | src/lib/csg/csg.ts:64-70 | a candidate triangle is kept, as one polygon with exactly its vertices, exactly when it has a plane |
| Csg.IndexedSoupStep | src/lib/csg/csg.ts:58-71 | each index triple adds what KeepPlanar keeps of the triangle it names |
| Csg.PlainSoupStep | src/lib/csg/csg.ts:72-81 | each group of nine numbers adds what KeepPlanar keeps of its triangle |
| Csg.FromGeometry | src/lib/csg/csg.ts:53-85 | for any buffers: with an index, one candidate triangle per started index triple; without one, one per started group of nine numbers; missing numbers read as 0 |
| Csg.IndexedPolygons | src/lib/csg/csg.ts:59-71 | the loop `i += 3` while `i < index.length` builds the soup of the index length divided by 3, rounded up, triples |
| Csg.IndexedStep | src/lib/csg/csg.ts:60-70 | one index triple extends the soup by its kept triangle |
| Csg.PlainPolygons | src/lib/csg/csg.ts:73-81 | the loop `i += 9` while `i < position.length` builds the soup of the buffer length divided by 9, rounded up, groups |
| Csg.PlainStep | src/lib/csg/csg.ts:74-80 | nine numbers extend the soup by their kept triangle |
| Csg.PushIfPlanar | src/lib/csg/csg.ts:70 | the polygon is pushed exactly when it has a plane |
| Csg.IndexedSoupShape | src/lib/csg/csg.ts:58-71 | at most one polygon per triple; each has exactly 3 vertices and a plane |
| Csg.PlainSoupShape | src/lib/csg/csg.ts:72-81 | at most one polygon per nine numbers; each has exactly 3 vertices and a plane |
| Csg.FanOf | src/lib/csg/csg.ts:93-101 | the inner loop writes the fan triangles (v0, vi, vi+1) of one polygon |
| Csg.FanPrefixLength | src/lib/csg/csg.ts:93-101 | j - 1 fan triangles make 9 (j - 1) numbers |
| Csg.GeometryLength | src/lib/csg/csg.ts:90-102 | the output length is 9 times the sum of n - 2 over the polygons that have a plane |
| Csg.GeometryAppend | src/lib/csg/csg.ts:90-91 | one more polygon adds its fan when it has a plane and nothing otherwise |
| Csg.TriangleFan | src/lib/csg/csg.ts:93-101 | the fan of a triangle read from nine numbers gives back the same nine numbers |
| Csg.RoundTrip | src/lib/csg/csg.ts:72-102 | for a plain buffer with no degenerate triangle, converting to polygons and back reproduces the buffer exactly |
| Csg.KeepsAll | src/lib/csg/csg.ts:72-81 | with no degenerate triangle, every triangle becomes a polygon |
| Csg.RoundTripPrefix | src/lib/csg/csg.ts:72-102 | when all of the first k triangles are kept, converting back gives the first 9 k numbers |
| StlExporter.CharByte | src/lib/stl-exporter.ts:22 | definition: the character code modulo 256, as setUint8 stores it |
| StlExporter.HeaderByte | src/lib/stl-exporter.ts:20-23 | definition: the header text's character i, zero past its end |
| StlExporter.FaceNormal | src/lib/stl-exporter.ts:33-39 | definition: normalize of (v1 - v0) x (v2 - v0) |
| StlExporter.Records | src/lib/stl-exporter.ts:31-61 | definition: the records of the first k triangles, in order |
| StlExporter.StlImage | src/lib/stl-exporter.ts:12-61 | definition: the header, the little-endian count and the records |
| StlExporter.Header | src/lib/stl-exporter.ts:20-23 | 80 bytes: the header text's character codes, then zeros |
| StlExporter.Le32 | src/lib/stl-exporter.ts:26 | the little-endian count is four bytes |
| StlExporter.Le32RoundTrip | src/lib/stl-exporter.ts:26 | decoding the four bytes gives the count modulo 2^32 |
| StlExporter.RecordFloats | src/lib/stl-exporter.ts:33-57 | a record holds twelve numbers: the face normal, then the nine coordinates |
| StlExporter.Record | src/lib/stl-exporter.ts:31-61 | a record is 50 bytes |
| StlExporter.ExportToSTL | src/lib/stl-exporter.ts:6-64 | fails exactly when the buffer is not a whole number of triangles; otherwise the bytes are the header, the little-endian count and one 50-byte record per triangle (StlImage) |
| StlExporter.WriteImage | src/lib/stl-exporter.ts:12-61 | the buffer is the header, the count and the records |
| StlExporter.WriteTriangles | src/lib/stl-exporter.ts:28-61 | the triangle loop fills everything after byte 84 with the records, in order |
| StlExporter.WriteTriangle | src/lib/stl-exporter.ts:31-61 | one pass writes the next 50-byte record after the earlier ones |
| StlExporter.RecordsStep | src/lib/stl-exporter.ts:31-61 | the records of k + 1 triangles are those of k followed by record k |
| StlExporter.WriteHeader | src/lib/stl-exporter.ts:20-23 | the first 80 bytes become the header |
| StlExporter.SetUint32 | src/lib/stl-exporter.ts:26 | the four bytes at the offset become the little-endian count |
| StlExporter.SetFloat32 | src/lib/stl-exporter.ts:42 | the four bytes at the offset become the float's encoding |
| StlExporter.SetUint16Zero | src/lib/stl-exporter.ts:60 | the two bytes at the offset become zero |
| StlExporter.WriteRecord | src/lib/stl-exporter.ts:33-60 | the 50 bytes at the offset become the triangle's record |
| StlExporter.WriteFloat | src/lib/stl-exporter.ts:42-57 | one more of the twelve numbers is written after the earlier ones |
| StlExporter.RecordsLength | src/lib/stl-exporter.ts:28-61 | k records take 50 k bytes |
| StlExporter.RecordsAt | src/lib/stl-exporter.ts:28-61 | record j occupies bytes 50 j to 50 j + 49 of the records |
| StlExporter.ImageLength | src/lib/stl-exporter.ts:12-16 | the file is 84 + 50 T bytes for T = length / 9 |
| StlExporter.ImageHeader | src/lib/stl-exporter.ts:20-23 | bytes 0 to 33 are the 34 character codes of the header text and bytes 34 to 79 are zero |
| StlExporter.HeaderAscii | src/lib/stl-exporter.ts:20 | every header character is ASCII, so its code fits a byte |
| StlExporter.ImageCount | src/lib/stl-exporter.ts:26 | bytes 80 to 83 decode, little-endian, to T modulo 2^32 |
| StlExporter.ImageRecord | src/lib/stl-exporter.ts:28-61 | triangle k occupies bytes 84 + 50 k to 84 + 50 k + 49 |
| StlExporter.FloatsBytesIndex | src/lib/stl-exporter.ts:42-57 | byte j of the encoded numbers is byte j % 4 of number j / 4 |
| StlExporter.RecordWritten | src/lib/stl-exporter.ts:42-60 | a record is the twelve encoded numbers followed by two zero bytes |
| StlExporter.RecordLayout | src/lib/stl-exporter.ts:33-60 | a record's bytes 0 to 11 encode the normalised (v1 - v0) x (v2 - v0), the nine coordinates sit in input order at 12 to 47, and bytes 48 and 49 are zero |
| StlExporter.RecordSlot | src/lib/stl-exporter.ts:42-57 | bytes 4 m to 4 m + 3 of a record encode its number m |
| ModelBuilder.NutSpecOf | src/lib/constants.ts:4-7 | definition: the NUT_SPECS table |
| ModelBuilder.ConnectorSpecOf | src/lib/constants.ts:12-17 | definition: the CONNECTOR_SPECS table, with no flat for banana and binding |
| ModelBuilder.OrDefault | src/lib/model-builder.ts:43-44 | definition: the spec's value when present, else the fallback |
| ModelBuilder.LayoutOf | src/lib/model-builder.ts:53-63 | definition: the radii and heights derived before the first step |
| ModelBuilder.GroovePoints | src/lib/model-builder.ts:77-81 | definition: the four points of groove i |
| ModelBuilder.Grooves | src/lib/model-builder.ts:76-82 | definition: the points of the first n grooves, in order |
| ModelBuilder.Profile | src/lib/model-builder.ts:69-89 | definition: the axis point, the grooves and the top corner, or the four plain corners, then the top axis point |
| ModelBuilder.Round | src/lib/model-builder.ts:193 | definition: Math.round as floor(x + 0.5) |
| ModelBuilder.Percent | src/lib/model-builder.ts:193 | definition: round(step / 16 * 100) |
| ModelBuilder.GetBuildParams | src/lib/model-builder.ts:25-47 | the coil, groove, base, post and wire fields are copied unchanged |
| ModelBuilder.NutFields | src/lib/model-builder.ts:39-41 | the nut pocket is the nut's across-flats and thickness plus 0.5, with the nut's bore (17.5, 8.5 and 10.5 for M10; 13.5, 7 and 8.5 for M8) |
| ModelBuilder.RadioFields | src/lib/model-builder.ts:42-44 | the radio hole comes from its connector; BNC gives a 16 by 3 flat, SMA a 12 by 2 flat, and connectors without flat dimensions a 14 by 2.5 flat |
| ModelBuilder.CounterpoiseFields | src/lib/constants.ts:12-17 | the counterpoise hole is 4.2 for a banana socket and 8 for a binding post |
| ModelBuilder.RfIrrelevant | src/lib/model-builder.ts:25-47 | frequency and whip length do not affect the build parameters |
| ModelBuilder.LayoutStacking | src/lib/model-builder.ts:53-63 | coilTop = baseHeight + coilHeight, postTop = coilTop + postHeight, postRadius = nutAcrossFlats / 2 + 4, wireTopY = coilTop - 5, wireBotY = baseHeight + 5, with the orderings that follow for non-negative heights |
| ModelBuilder.PostRadius | src/lib/model-builder.ts:55 | with the nut table, the post radius is 12.75 for M10 and 10.75 for M8 |
| ModelBuilder.NumGrooves | src/lib/model-builder.ts:74-76 | with a positive pitch and a non-negative height, the count is floor(height / pitch): that many grooves fit and one more does not |
| ModelBuilder.CoilProfile | src/lib/model-builder.ts:69-89 | the pushed points are the profile: the bottom axis point, the grooves or the bottom corner, the top corner and the top axis point |
| ModelBuilder.GrooveLoop | src/lib/model-builder.ts:76-82 | the loop pushes four points per groove |
| ModelBuilder.GroovesAt | src/lib/model-builder.ts:76-82 | n grooves give 4 n points, and groove i sits at positions 4 i to 4 i + 3 |
| ModelBuilder.GroovesLength | src/lib/model-builder.ts:76-82 | n grooves give 4 n points |
| ModelBuilder.ProfileShape | src/lib/model-builder.ts:69-89 | without grooves the profile is exactly (0.01, 0), (r, 0), (r, h), (0.01, h); with grooves it has 4 floor(h / p) + 3 points; it always starts at (0.01, 0) and ends at (0.01, h) |
| ModelBuilder.ProfileGroove | src/lib/model-builder.ts:76-82 | groove i's outer points are at radius r and its floor points at r - 0.8, from height i p to i p + p |
| ModelBuilder.GroovesAscending | src/lib/model-builder.ts:76-82 | for p >= 0 the groove heights never decrease, lie in [0, n p], and run from 0 to n p |
| ModelBuilder.GrooveAscending | src/lib/model-builder.ts:77-81 | groove i climbs from i p to i p + p within [0, n p] |
| ModelBuilder.GrooveOrder | src/lib/model-builder.ts:77-81 | the four heights of a groove are in order and within the bound |
| ModelBuilder.GroovesWithin | src/lib/model-builder.ts:72-83 | with p > 0 and h >= 0 the groove heights never decrease and lie in [0, h] |
| ModelBuilder.Bracketed | src/lib/model-builder.ts:69-89 | adding the axis points and the top corner keeps the heights in order and within [0, h] |
| ModelBuilder.ProfileAscending | src/lib/model-builder.ts:69-89 | with p > 0 and h >= 0 the grooved profile's heights never decrease and lie in [0, h] |
| ModelBuilder.ProgressReporter.constructor | src/lib/model-builder.ts:188-189 | the counter starts at 0 and nothing has been reported |
| ModelBuilder.ProgressReporter.Report | src/lib/model-builder.ts:191-195 | the counter goes up by one and, with a listener, the rounded percentage of the new count is reported |
| ModelBuilder.ProgressValues | src/lib/model-builder.ts:188-195 | there are sixteen values |
| ModelBuilder.BuildProgress | src/lib/model-builder.ts:184-195 | with a listener it receives the sixteen values, and without one nothing is reported |
| ModelBuilder.ProgressShape | src/lib/model-builder.ts:188-195 | the values are round(100 k / 16) for k = 1 to 16: 6, 13, ..., 100, never decreasing and within [0, 100] |
| ModelBuilder.PercentMonotone | src/lib/model-builder.ts:193 | the rounded percentage never decreases as the step grows, and runs from 0 at step 0 to 100 at step 16 |

## Left out

- Numbers are modelled as real arithmetic. IEEE-754 rounding, NaN and infinities are left out, so every equality above holds for reals, not for doubles.
- `Math.sqrt` is the parameter `sqrt`, because Dafny has no square root on `real`. Lemmas that need an exact root require `ExactSqrt(sqrt)`.
- The float32 encoding of the STL writer is the parameter `f32`, treated as an opaque 4-byte encoding. The three.js `normalize` of the face normal is the parameter `normalize`.
- Polygons and planes are values. `Polygon.flip` and `Plane.flip` reverse and negate in place in the engine; here they return the flipped value, and the tree node that holds it is reassigned. Aliasing of one polygon object between two trees is not modelled. This happens in `a.build(b.allPolygons())`, but `b` is discarded afterwards, so the results agree.
- The four lists of `splitPolygon` are passed by reference, and callers pass the same list more than once. Here the function returns what it appends to each list, and the callers concatenate.
- Bsp.BSPNode.Build: the recursion depth is bounded by a ghost `fuel`, and the precondition asks that the build completes within it. Builds that need more levels than any given bound are not covered. BuildFuelMonotone shows that the bound does not change a completed result.
- Csg.CSG.Union and Csg.CSG.Subtract: they take the same fuel as `build`. Their operands are values, so "leaves this and other unchanged" holds trivially and is not stated.
- StlExporter.ExportToSTL: returns a Failure, without bytes, when the buffer is not a whole number of triangles. The engine allocates a truncated buffer, fills it partially, and then throws a RangeError. The contents it wrote before the throw are not modelled.
- StlExporter.WriteRecord: the twelve explicit `setFloat32` calls are written as a loop over the twelve numbers.
- StlExporter.Le32: a count of 2^32 or more is reduced modulo 2^32, as `setUint32` does.
- ModelBuilder.NumGrooves: requires that a zero pitch comes with a non-positive height. For p = 0 and h > 0 the source's loop bound is `Infinity` and the loop never stops.
- `Math.round` is modelled as `floor(x + 0.5)`, which is how it is defined for finite numbers.
- The two copies of the coil-profile code (model-builder.ts lines 69-89 and 213-233) and of the layout (lines 53-63 and 197-206) are identical. One model covers both.
- The sixteen reports of the progress build are the loop of BuildProgress. The CSG steps between them, the `setTimeout` yield and the cancellation counter are scheduling, and are left out.
- All three.js calls are foreign library code and are left out. This covers the primitive constructors, `LatheGeometry`, `translate`, `computeVertexNormals` and `Float32BufferAttribute`, which together make up the sixteen primitive steps of the recipe. `fromGeometry` and `toGeometry` work on plain coordinate and index sequences instead.
- Solid-level properties (point membership, volume, and idempotence of union) are left out. The engine states nothing about them.
- `downloadSTL` (browser I/O) is left out. So are the RF calculations in `src/lib/rf.ts` (transcendental floating point), the band table, and the user interface.
