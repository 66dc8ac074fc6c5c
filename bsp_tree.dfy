/**
 * The BSP tree of the CSG engine as a value: the specification that the
 * mutable `BSPNode` class is proved against. Every operation of the class
 * has a function here that computes the tree (or the list) it produces.
 */
module BspTrees {
  import opened Wrappers
  import opened Vectors
  import opened Vertices
  import opened Planes
  import opened Polygons
  import opened Splitting

  /** A node: its splitting plane (none until the first build), its children and its resident polygons. */
  datatype Tree = Node(plane: Option<Plane>, front: Option<Tree>, back: Option<Tree>, polygons: seq<Polygon>)

  /** `new BSPNode()`. */
  function EmptyTree(): Tree
  {
    Node(None, None, None, [])
  }

  function OrEmpty(t: Option<Tree>): Tree
  {
    if t.Some? then t.value else EmptyTree()
  }

  /** Applies `flip` to every polygon, keeping the order. */
  function FlipAll(ps: seq<Polygon>): (r: seq<Polygon>)
    ensures |r| == |ps|
    ensures forall i :: 0 <= i < |ps| ==> r[i] == ps[i].Flip()
  {
    seq(|ps|, i requires 0 <= i < |ps| => ps[i].Flip())
  }

  /** `invert`: flip every polygon and every plane and swap the children, at every node. */
  function InvertTree(t: Tree): Tree
  {
    Node(if t.plane.Some? then Some(t.plane.value.Flip()) else None,
         if t.back.Some? then Some(InvertTree(t.back.value)) else None,
         if t.front.Some? then Some(InvertTree(t.front.value)) else None,
         FlipAll(t.polygons))
  }

  /**
   * The loop of `clipPolygons`: split every polygon that has a plane, with
   * `front` serving as both front lists and `back` as both back lists.
   */
  function ClipPartition(plane: Plane, ps: seq<Polygon>, sqrt: real -> real): (seq<Polygon>, seq<Polygon>)
  {
    if |ps| == 0 then ([], [])
    else
      var (f, b) := ClipPartition(plane, ps[..|ps| - 1], sqrt);
      var p := ps[|ps| - 1];
      if p.plane.Some? then
        var r := Split(plane, p, sqrt);
        (f + r.coplanarFront + r.front, b + r.coplanarBack + r.back)
      else (f, b)
  }

  /** `clipPolygons`: what survives of the polygons outside the solid this tree bounds. */
  function ClipPolygonsTree(t: Tree, ps: seq<Polygon>, sqrt: real -> real): seq<Polygon>
  {
    if t.plane.None? then ps
    else
      var (f, b) := ClipPartition(t.plane.value, ps, sqrt);
      var f' := if t.front.Some? then ClipPolygonsTree(t.front.value, f, sqrt) else f;
      var b' := if t.back.Some? then ClipPolygonsTree(t.back.value, b, sqrt) else [];
      f' + b'
  }

  /** `clipTo`: replace the polygons of every node by what `other` leaves of them. */
  function ClipToTree(t: Tree, other: Tree, sqrt: real -> real): Tree
  {
    Node(t.plane,
         if t.front.Some? then Some(ClipToTree(t.front.value, other, sqrt)) else None,
         if t.back.Some? then Some(ClipToTree(t.back.value, other, sqrt)) else None,
         ClipPolygonsTree(other, t.polygons, sqrt))
  }

  /** `allPolygons`: the node's polygons, then the front subtree's, then the back subtree's. */
  function AllPolygons(t: Tree): seq<Polygon>
  {
    t.polygons
    + (if t.front.Some? then AllPolygons(t.front.value) else [])
    + (if t.back.Some? then AllPolygons(t.back.value) else [])
  }

  /** `polygons.filter((p) => p.plane)`. */
  function ValidPolygons(ps: seq<Polygon>): (r: seq<Polygon>)
    ensures |r| <= |ps|
    ensures forall i :: 0 <= i < |r| ==> r[i].plane.Some?

  {
    if |ps| == 0 then []
    else ValidPolygons(ps[..|ps| - 1]) + (if ps[|ps| - 1].plane.Some? then [ps[|ps| - 1]] else [])
  }

  /** What the loop of `build` collects: coplanar polygons of both orientations, the front list and the back list. */
  datatype BuildLists = BuildLists(coplanar: seq<Polygon>, front: seq<Polygon>, back: seq<Polygon>)

  /** The loop of `build`, which passes the node's own polygons as both coplanar lists. */
  function BuildPartition(plane: Plane, ps: seq<Polygon>, sqrt: real -> real): BuildLists
    requires forall i :: 0 <= i < |ps| ==> ps[i].plane.Some?
  {
    if |ps| == 0 then BuildLists([], [], [])
    else
      var l := BuildPartition(plane, ps[..|ps| - 1], sqrt);
      var r := Split(plane, ps[|ps| - 1], sqrt);
      BuildLists(l.coplanar + r.coplanarFront + r.coplanarBack, l.front + r.front, l.back + r.back)
  }

  /**
   * `build`, with the recursion depth bounded by `fuel`: None when the
   * recursion would go deeper than `fuel` levels. With no valid polygon the
   * tree is returned as it is, whatever the fuel.
   */
  function BuildTree(t: Tree, ps: seq<Polygon>, sqrt: real -> real, fuel: nat): Option<Tree>
    decreases fuel, 2
  {
    var valid := ValidPolygons(ps);
    if |valid| == 0 then Some(t)
    else if fuel == 0 then None
    else BuildNode(t, NodePlane(t, valid), valid, sqrt, fuel)
  }

  /** One level of `build` with the node's plane chosen: the loop over the valid polygons, then the two children. */
  function BuildNode(t: Tree, plane: Plane, valid: seq<Polygon>, sqrt: real -> real, fuel: nat): Option<Tree>
    requires forall i :: 0 <= i < |valid| ==> valid[i].plane.Some?
    requires fuel > 0
    decreases fuel, 1
  {
    var lists := BuildPartition(plane, valid, sqrt);
    Assemble(t, plane, lists.coplanar,
             BuildChild(t.front, lists.front, sqrt, fuel - 1),
             BuildChild(t.back, lists.back, sqrt, fuel - 1))
  }

  /** The valid polygons are exactly the input polygons that have a plane, in input order. */
  lemma {:induction false} ValidPolygonsMembers(ps: seq<Polygon>)
    ensures forall p :: p in ValidPolygons(ps) <==> p in ps && p.plane.Some?
  {
    if |ps| > 0 {
      ValidPolygonsMembers(ps[..|ps| - 1]);
      assert ps == ps[..|ps| - 1] + [ps[|ps| - 1]];
    }
  }

  /** The node's plane during `build`: its own, or else a copy of the first valid polygon's. */
  function NodePlane(t: Tree, valid: seq<Polygon>): Plane
    requires |valid| > 0 && valid[0].plane.Some?
  {
    if t.plane.Some? then t.plane.value else valid[0].plane.value.Clone()
  }

  /** The node after `build`, or None when a child ran out of fuel. */
  function Assemble(t: Tree, plane: Plane, coplanar: seq<Polygon>, front: Option<Option<Tree>>, back: Option<Option<Tree>>): Option<Tree>
  {
    if front.None? || back.None? then None
    else Some(Node(Some(plane), front.value, back.value, t.polygons + coplanar))
  }

  /**
   * A child after `build`: unchanged when its list is empty, otherwise the
   * existing child (or a new empty node) built with the list; None when out
   * of fuel.
   */
  function BuildChild(c: Option<Tree>, ps: seq<Polygon>, sqrt: real -> real, fuel: nat): Option<Option<Tree>>
    decreases fuel, 3
  {
    if |ps| == 0 then Some(c)
    else
      var r := BuildTree(OrEmpty(c), ps, sqrt, fuel);
      if r.None? then None else Some(Some(r.value))
  }

  /** `clone`: copies of the planes and polygons at every node; each polygon's plane is derived again. */
  function CloneTree(t: Tree, sqrt: real -> real): Tree
  {
    Node(if t.plane.Some? then Some(t.plane.value.Clone()) else None,
         if t.front.Some? then Some(CloneTree(t.front.value, sqrt)) else None,
         if t.back.Some? then Some(CloneTree(t.back.value, sqrt)) else None,
         CloneAll(t.polygons, sqrt))
  }

  /** A clone has the same planes and children as the original and as many polygons at every node. */
  lemma {:induction false} CloneShape(t: Tree, sqrt: real -> real)
    ensures SameShape(CloneTree(t, sqrt), t)
    ensures ResidentCount(CloneTree(t, sqrt)) == ResidentCount(t)
    ensures |AllPolygons(CloneTree(t, sqrt))| == |AllPolygons(t)|
  {
    if t.front.Some? {
      CloneShape(t.front.value, sqrt);
    }
    if t.back.Some? {
      CloneShape(t.back.value, sqrt);
    }
    AllPolygonsCount(t);
    AllPolygonsCount(CloneTree(t, sqrt));
  }

  /** `polygons.map(p => p.clone())`. */
  function CloneAll(ps: seq<Polygon>, sqrt: real -> real): (r: seq<Polygon>)
    ensures |r| == |ps|
    ensures forall i :: 0 <= i < |ps| ==> r[i] == ps[i].Clone(sqrt)
  {
    seq(|ps|, i requires 0 <= i < |ps| => ps[i].Clone(sqrt))
  }

  /** The two trees have the same planes and the same children at every node; only polygons may differ. */
  predicate SameShape(t: Tree, u: Tree)
  {
    && t.plane == u.plane
    && t.front.Some? == u.front.Some?
    && t.back.Some? == u.back.Some?
    && (t.front.Some? ==> SameShape(t.front.value, u.front.value))
    && (t.back.Some? ==> SameShape(t.back.value, u.back.value))
  }

  /**
   * `u` grows out of `t` by appending only: an existing plane is kept, the
   * old resident polygons are a prefix of the new ones, and every existing
   * child is kept and itself extended.
   */
  predicate Extends(t: Tree, u: Tree)
  {
    && (t.plane.Some? ==> u.plane == t.plane)
    && t.polygons <= u.polygons
    && (t.front.Some? ==> u.front.Some? && Extends(t.front.value, u.front.value))
    && (t.back.Some? ==> u.back.Some? && Extends(t.back.value, u.back.value))
  }

  /** invert is an involution: inverting twice restores every plane, polygon and child placement. */
  lemma {:induction false} InvertInvolution(t: Tree)
    ensures InvertTree(InvertTree(t)) == t
  {
    if t.front.Some? {
      InvertInvolution(t.front.value);
    }
    if t.back.Some? {
      InvertInvolution(t.back.value);
    }
    if t.plane.Some? {
      Planes.FlipInvolution(t.plane.value, Zero());
    }
    var ps := FlipAll(FlipAll(t.polygons));
    forall i | 0 <= i < |t.polygons| ensures ps[i] == t.polygons[i] {
      Polygons.FlipInvolution(t.polygons[i]);
    }
    assert ps == t.polygons;
  }

  /** invert keeps the polygon count of every node and mirrors the shape: front and back swap at every node. */
  lemma {:induction false} InvertCounts(t: Tree)
    ensures |InvertTree(t).polygons| == |t.polygons|
    ensures InvertTree(t).front.Some? <==> t.back.Some?
    ensures InvertTree(t).back.Some? <==> t.front.Some?
    ensures |AllPolygons(InvertTree(t))| == |AllPolygons(t)|
  {
    if t.front.Some? {
      InvertCounts(t.front.value);
    }
    if t.back.Some? {
      InvertCounts(t.back.value);
    }
  }

  /** Clipping an empty list gives an empty list, at any tree. */
  lemma {:induction false} ClipEmpty(t: Tree, sqrt: real -> real)
    ensures ClipPolygonsTree(t, [], sqrt) == []
  {
    if t.plane.Some? {
      if t.front.Some? {
        ClipEmpty(t.front.value, sqrt);
      }
      if t.back.Some? {
        ClipEmpty(t.back.value, sqrt);
      }
    }
  }

  /** Clipping by a tree without a plane keeps everything, so clipTo against a fresh node changes nothing. */
  lemma {:induction false} ClipToNothing(t: Tree, sqrt: real -> real)
    ensures ClipToTree(t, EmptyTree(), sqrt) == t
  {
    if t.front.Some? {
      ClipToNothing(t.front.value, sqrt);
    }
    if t.back.Some? {
      ClipToNothing(t.back.value, sqrt);
    }
  }

  /** A polygon without a plane is dropped by every node that has a plane. */
  lemma ClipPartitionSkips(plane: Plane, ps: seq<Polygon>, sqrt: real -> real)
    requires forall p :: p in ps ==> p.plane.None?
    ensures ClipPartition(plane, ps, sqrt) == ([], [])
  {
    if |ps| > 0 {
      assert ps[|ps| - 1] in ps;
      ClipPartitionSkips(plane, ps[..|ps| - 1], sqrt);
    }
  }

  /** clipTo keeps the tree's shape and planes. */
  lemma {:induction false} ClipToShape(t: Tree, other: Tree, sqrt: real -> real)
    ensures SameShape(ClipToTree(t, other, sqrt), t)
  {
    if t.front.Some? {
      ClipToShape(t.front.value, other, sqrt);
    }
    if t.back.Some? {
      ClipToShape(t.back.value, other, sqrt);
    }
  }

  /** With no valid polygon, build changes nothing. */
  lemma BuildNoValid(t: Tree, ps: seq<Polygon>, sqrt: real -> real, fuel: nat)
    requires forall p :: p in ps ==> p.plane.None?
    ensures BuildTree(t, ps, sqrt, fuel) == Some(t)
  {
    ValidPolygonsMembers(ps);
  }

  /**
   * With at least one valid polygon, build gives a node with a plane: the
   * existing one, or else a copy of the first valid polygon's plane.
   */
  lemma BuildPlane(t: Tree, ps: seq<Polygon>, sqrt: real -> real, fuel: nat)
    requires BuildTree(t, ps, sqrt, fuel).Some?
    requires exists p :: p in ps && p.plane.Some?
    ensures var u := BuildTree(t, ps, sqrt, fuel).value;
      |ValidPolygons(ps)| > 0 && u.plane == if t.plane.Some? then t.plane else ValidPolygons(ps)[0].plane
  {
    var p :| p in ps && p.plane.Some?;
    ValidPolygonsMembers(ps);
    assert p in ValidPolygons(ps);
  }

  /** Every tree extends itself. */
  lemma {:induction false} ExtendsReflexive(t: Tree)
    ensures Extends(t, t)
  {
    if t.front.Some? {
      ExtendsReflexive(t.front.value);
    }
    if t.back.Some? {
      ExtendsReflexive(t.back.value);
    }
  }

  /** A tree that extends another holds all of its polygons, and possibly more. */
  lemma {:induction false} ExtendsAllPolygons(t: Tree, u: Tree)
    requires Extends(t, u)
    ensures multiset(AllPolygons(t)) <= multiset(AllPolygons(u))
  {
    var fu := if u.front.Some? then AllPolygons(u.front.value) else [];
    var bu := if u.back.Some? then AllPolygons(u.back.value) else [];
    if t.front.Some? {
      ExtendsAllPolygons(t.front.value, u.front.value);
    }
    if t.back.Some? {
      ExtendsAllPolygons(t.back.value, u.back.value);
    }
    assert u.polygons == t.polygons + u.polygons[|t.polygons|..];
    assert AllPolygons(u) == t.polygons + u.polygons[|t.polygons|..] + fu + bu;
  }

  /** build only appends: it never replaces a plane, removes a resident polygon or discards a child. */
  lemma {:induction false} BuildExtends(t: Tree, ps: seq<Polygon>, sqrt: real -> real, fuel: nat)
    requires BuildTree(t, ps, sqrt, fuel).Some?
    ensures Extends(t, BuildTree(t, ps, sqrt, fuel).value)
    decreases fuel, 1
  {
    var valid := ValidPolygons(ps);
    if |valid| == 0 {
      ExtendsReflexive(t);
    } else {
      NodeExtends(t, NodePlane(t, valid), valid, sqrt, fuel);
    }
  }

  /** One level of build with the node's plane chosen only appends. */
  lemma {:induction false} NodeExtends(t: Tree, plane: Plane, valid: seq<Polygon>, sqrt: real -> real, fuel: nat)
    requires forall i :: 0 <= i < |valid| ==> valid[i].plane.Some?
    requires 0 < fuel && (t.plane.Some? ==> t.plane.value == plane)
    requires BuildNode(t, plane, valid, sqrt, fuel).Some?
    ensures Extends(t, BuildNode(t, plane, valid, sqrt, fuel).value)
    decreases fuel, 0
  {
    var lists := NodeLists(t, plane, valid, sqrt, fuel, fuel);
    ChildExtends(t.front, lists.front, sqrt, fuel - 1);
    ChildExtends(t.back, lists.back, sqrt, fuel - 1);
  }

  lemma {:induction false} ChildExtends(c: Option<Tree>, ps: seq<Polygon>, sqrt: real -> real, fuel: nat)
    requires BuildChild(c, ps, sqrt, fuel).Some?
    ensures var c' := BuildChild(c, ps, sqrt, fuel).value;
      c.Some? ==> c'.Some? && Extends(c.value, c'.value)
    decreases fuel, 2
  {
    if |ps| > 0 {
      BuildExtends(OrEmpty(c), ps, sqrt, fuel);
    } else if c.Some? {
      ExtendsReflexive(c.value);
    }
  }

  /**
   * For two fuels, one level of build assembles the same three lists; the
   * lists are returned without their definition, which the fuel and
   * extension proofs do not need.
   */
  lemma NodeLists(t: Tree, plane: Plane, valid: seq<Polygon>, sqrt: real -> real, fuel: nat, more: nat) returns (lists: BuildLists)
    requires forall i :: 0 <= i < |valid| ==> valid[i].plane.Some?
    requires 0 < fuel && 0 < more
    ensures BuildNode(t, plane, valid, sqrt, fuel)
      == Assemble(t, plane, lists.coplanar, BuildChild(t.front, lists.front, sqrt, fuel - 1), BuildChild(t.back, lists.back, sqrt, fuel - 1))
    ensures BuildNode(t, plane, valid, sqrt, more)
      == Assemble(t, plane, lists.coplanar, BuildChild(t.front, lists.front, sqrt, more - 1), BuildChild(t.back, lists.back, sqrt, more - 1))
  {
    lists := BuildPartition(plane, valid, sqrt);
  }

  /** The result of build does not depend on the fuel, once there is enough of it. */
  lemma {:induction false} BuildFuelMonotone(t: Tree, ps: seq<Polygon>, sqrt: real -> real, fuel: nat, more: nat)
    requires BuildTree(t, ps, sqrt, fuel).Some?
    requires fuel <= more
    ensures BuildTree(t, ps, sqrt, more) == BuildTree(t, ps, sqrt, fuel)
    decreases fuel, 1
  {
    var valid := ValidPolygons(ps);
    if |valid| > 0 {
      NodeFuelMonotone(t, NodePlane(t, valid), valid, sqrt, fuel, more);
    }
  }

  /** One level of build with the node's plane chosen does not depend on the fuel either. */
  lemma {:induction false} NodeFuelMonotone(t: Tree, plane: Plane, valid: seq<Polygon>, sqrt: real -> real, fuel: nat, more: nat)
    requires forall i :: 0 <= i < |valid| ==> valid[i].plane.Some?
    requires 0 < fuel <= more
    requires BuildNode(t, plane, valid, sqrt, fuel).Some?
    ensures BuildNode(t, plane, valid, sqrt, more) == BuildNode(t, plane, valid, sqrt, fuel)
    decreases fuel, 0
  {
    var lists := NodeLists(t, plane, valid, sqrt, fuel, more);
    ChildFuelMonotone(t.front, lists.front, sqrt, fuel - 1, more - 1);
    ChildFuelMonotone(t.back, lists.back, sqrt, fuel - 1, more - 1);
  }

  lemma {:induction false} ChildFuelMonotone(c: Option<Tree>, ps: seq<Polygon>, sqrt: real -> real, fuel: nat, more: nat)
    requires BuildChild(c, ps, sqrt, fuel).Some?
    requires fuel <= more
    ensures BuildChild(c, ps, sqrt, more) == BuildChild(c, ps, sqrt, fuel)
    decreases fuel, 2
  {
    if |ps| > 0 {
      BuildFuelMonotone(OrEmpty(c), ps, sqrt, fuel, more);
    }
  }

  /** The number of resident polygons, summed over every node. */
  function ResidentCount(t: Tree): nat
  {
    |t.polygons|
    + (if t.front.Some? then ResidentCount(t.front.value) else 0)
    + (if t.back.Some? then ResidentCount(t.back.value) else 0)
  }

  /** allPolygons holds each node's polygons once: its length is the sum of the resident counts. */
  lemma {:induction false} AllPolygonsCount(t: Tree)
    ensures |AllPolygons(t)| == ResidentCount(t)
  {
    if t.front.Some? {
      AllPolygonsCount(t.front.value);
    }
    if t.back.Some? {
      AllPolygonsCount(t.back.value);
    }
  }

  /**
   * One level of build: the coplanar polygons of both orientations are
   * appended to the node's own polygons, and a child exists afterwards
   * exactly when it existed before or its list is non-empty.
   */
  lemma BuildChildren(t: Tree, ps: seq<Polygon>, sqrt: real -> real, fuel: nat)
    requires BuildTree(t, ps, sqrt, fuel).Some? && |ValidPolygons(ps)| > 0
    ensures var valid := ValidPolygons(ps);
      var lists := BuildPartition(NodePlane(t, valid), valid, sqrt);
      var u := BuildTree(t, ps, sqrt, fuel).value;
      && u.polygons == t.polygons + lists.coplanar
      && (u.front.Some? <==> t.front.Some? || |lists.front| > 0)
      && (u.back.Some? <==> t.back.Some? || |lists.back| > 0)
  {
    var valid := ValidPolygons(ps);
    var plane := NodePlane(t, valid);
    var lists := BuildPartition(plane, valid, sqrt);
    assert BuildTree(t, ps, sqrt, fuel) == BuildNode(t, plane, valid, sqrt, fuel);
    ChildShape(t.front, lists.front, sqrt, fuel - 1);
    ChildShape(t.back, lists.back, sqrt, fuel - 1);
  }

  /** A built child exists exactly when it existed before or its list is non-empty. */
  lemma ChildShape(c: Option<Tree>, ps: seq<Polygon>, sqrt: real -> real, fuel: nat)
    requires BuildChild(c, ps, sqrt, fuel).Some?
    ensures BuildChild(c, ps, sqrt, fuel).value.Some? <==> c.Some? || |ps| > 0
  {
  }
}
