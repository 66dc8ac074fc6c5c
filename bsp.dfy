/**
 * `BSPNode`: the mutable, exclusively owned binary space partitioning tree
 * of the CSG engine. Each method is proved against the function of
 * `BspTrees` that computes its result or the node's new `Model()`.
 */
module Bsp {
  import opened Wrappers
  import opened Planes
  import opened Polygons
  import opened Splitting
  import opened BspTrees

  class BSPNode {
    var plane: Option<Plane>
    var front: BSPNode?
    var back: BSPNode?
    var polygons: seq<Polygon>

    /** The node and every node below it. */
    ghost var Repr: set<object>

    /** The children are distinct, exclusively owned subtrees. */
    ghost predicate Valid()
      reads this, Repr
      decreases Repr
    {
      && this in Repr
      && (front != null ==>
            && front in Repr && front.Repr <= Repr && this !in front.Repr && front.Valid())
      && (back != null ==>
            && back in Repr && back.Repr <= Repr && this !in back.Repr && back.Valid())
      && (front != null && back != null ==> front.Repr !! back.Repr)
    }

    /** The tree this node stands for. */
    ghost function Model(): Tree
      reads this, Repr
      requires Valid()
      decreases Repr
    {
      Node(plane,
           if front != null then Some(front.Model()) else None,
           if back != null then Some(back.Model()) else None,
           polygons)
    }

    /**
     * `new BSPNode(polygons?)`: an empty node, built with the polygons when
     * they are given. `fuel` bounds the depth of that build.
     */
    constructor(ps: Option<seq<Polygon>>, sqrt: real -> real, ghost fuel: nat)
      requires ps.Some? ==> BuildTree(EmptyTree(), ps.value, sqrt, fuel).Some?
      ensures Valid() && fresh(Repr)
      ensures Model() == if ps.Some? then BuildTree(EmptyTree(), ps.value, sqrt, fuel).value else EmptyTree()
    {
      plane := None;
      front := null;
      back := null;
      polygons := [];
      Repr := {this};
      new;
      if ps.Some? {
        Build(ps.value, sqrt, fuel);
      }
    }

    /** `new BSPNode()`, as `build` and `clone` call it: an empty node. */
    constructor Empty()
      ensures Valid() && fresh(Repr)
      ensures Model() == EmptyTree()
    {
      plane := None;
      front := null;
      back := null;
      polygons := [];
      Repr := {this};
    }

    /** A node with the given plane, children and polygons; the children must be separate trees. */
    constructor Of(p: Option<Plane>, f: BSPNode?, b: BSPNode?, ps: seq<Polygon>)
      requires f != null ==> f.Valid()
      requires b != null ==> b.Valid()
      requires f != null && b != null ==> f.Repr !! b.Repr
      ensures Valid()
      ensures Repr == {this} + (if f != null then f.Repr else {}) + (if b != null then b.Repr else {})
      ensures Model() == Node(p, if f != null then Some(f.Model()) else None, if b != null then Some(b.Model()) else None, ps)
    {
      plane := p;
      front := f;
      back := b;
      polygons := ps;
      Repr := {this} + (if f != null then f.Repr else {}) + (if b != null then b.Repr else {});
    }

    /** `clone`: a new tree with copies of every plane and polygon. */
    method Clone(sqrt: real -> real) returns (node: BSPNode)
      requires Valid()
      ensures node.Valid() && fresh(node.Repr)
      ensures node.Model() == CloneTree(old(Model()), sqrt)
      ensures SameShape(node.Model(), old(Model())) && ResidentCount(node.Model()) == ResidentCount(old(Model()))
      decreases Repr, 2
    {
      ghost var t := Model();
      CloneShape(t, sqrt);
      var f, b := CloneChildren(sqrt, t);
      var p := if plane.Some? then Some(plane.value.Clone()) else None;
      var ps := CloneAll(polygons, sqrt);
      assert CloneTree(t, sqrt)
        == Node(p, if f != null then Some(f.Model()) else None, if b != null then Some(b.Model()) else None, ps);
      node := new BSPNode.Of(p, f, b, ps);
    }

    /** Copies of both subtrees, each null when there is none. */
    method CloneChildren(sqrt: real -> real, ghost t: Tree) returns (f: BSPNode?, b: BSPNode?)
      requires Valid() && t == Model()
      ensures t.front.None? <==> f == null
      ensures f != null ==> f.Valid() && fresh(f.Repr) && f.Model() == CloneTree(t.front.value, sqrt)
      ensures t.back.None? <==> b == null
      ensures b != null ==> b.Valid() && fresh(b.Repr) && b.Model() == CloneTree(t.back.value, sqrt)
      ensures f != null && b != null ==> f.Repr !! b.Repr
      decreases Repr, 1
    {
      f := CloneFront(sqrt, t);
      b := CloneBack(sqrt, t);
    }

    /** The copy of the front subtree, or null when there is none. */
    method CloneFront(sqrt: real -> real, ghost t: Tree) returns (f: BSPNode?)
      requires Valid() && t == Model()
      ensures t.front.None? <==> f == null
      ensures f != null ==> f.Valid() && fresh(f.Repr) && f.Model() == CloneTree(t.front.value, sqrt)
      decreases Repr, 0
    {
      f := null;
      if front != null {
        f := front.Clone(sqrt);
      }
    }

    /** The copy of the back subtree, or null when there is none. */
    method CloneBack(sqrt: real -> real, ghost t: Tree) returns (b: BSPNode?)
      requires Valid() && t == Model()
      ensures t.back.None? <==> b == null
      ensures b != null ==> b.Valid() && fresh(b.Repr) && b.Model() == CloneTree(t.back.value, sqrt)
      decreases Repr, 0
    {
      b := null;
      if back != null {
        b := back.Clone(sqrt);
      }
    }

    /** Replaces the node's own plane; the subtrees are untouched. */
    method SetPlane(p: Option<Plane>)
      requires Valid()
      modifies this
      ensures Valid() && Repr == old(Repr)
      ensures Model() == old(Model()).(plane := p)
    {
      plane := p;
    }

    /** Hangs the separate tree `c` in the empty front slot. */
    method AttachFront(c: BSPNode)
      requires Valid() && c.Valid() && front == null && Repr !! c.Repr
      modifies this
      ensures Valid() && Repr == old(Repr) + c.Repr
      ensures Model() == old(Model()).(front := Some(c.Model()))
    {
      front := c;
      Repr := Repr + c.Repr;
    }

    /** Hangs the separate tree `c` in the empty back slot. */
    method AttachBack(c: BSPNode)
      requires Valid() && c.Valid() && back == null && Repr !! c.Repr
      modifies this
      ensures Valid() && Repr == old(Repr) + c.Repr
      ensures Model() == old(Model()).(back := Some(c.Model()))
    {
      back := c;
      Repr := Repr + c.Repr;
    }

    /** Exchanges the two subtrees. */
    method SwapChildren()
      requires Valid()
      modifies this
      ensures Valid() && Repr == old(Repr)
      ensures Model() == old(Model()).(front := old(Model()).back, back := old(Model()).front)
    {
      front, back := back, front;
    }

    /** `invert`: flip every polygon and plane and swap the children, at every node. */
    method Invert()
      requires Valid()
      modifies Repr
      ensures Valid() && Repr == old(Repr)
      ensures Model() == InvertTree(old(Model()))
      decreases Repr, 1
    {
      FlipHere();
      InvertFront();
      InvertBack();
      SwapChildren();
    }

    /** The first half of `invert`, on this node only: flip every polygon, then the plane. */
    method FlipHere()
      requires Valid()
      modifies this
      ensures Valid() && Repr == old(Repr)
      ensures var t := old(Model());
        Model() == t.(plane := if t.plane.Some? then Some(t.plane.value.Flip()) else None, polygons := FlipAll(t.polygons))
    {
      var flipped := FlipPolygons(polygons);
      SetPolygons(flipped);
      if plane.Some? {
        SetPlane(Some(plane.value.Flip()));
      }
    }

    /** The front half of `invert`'s recursion. */
    method InvertFront()
      requires Valid()
      modifies Repr
      ensures Valid() && Repr == old(Repr)
      ensures var t := old(Model());
        Model() == t.(front := if t.front.Some? then Some(InvertTree(t.front.value)) else None)
      decreases Repr, 0
    {
      if front != null {
        front.Invert();
      }
    }

    /** The back half of `invert`'s recursion. */
    method InvertBack()
      requires Valid()
      modifies Repr
      ensures Valid() && Repr == old(Repr)
      ensures var t := old(Model());
        Model() == t.(back := if t.back.Some? then Some(InvertTree(t.back.value)) else None)
      decreases Repr, 0
    {
      if back != null {
        back.Invert();
      }
    }

    /** `clipPolygons`: the pieces of `ps` that this tree's solid does not remove; the tree is unchanged. */
    method ClipPolygons(ps: seq<Polygon>, sqrt: real -> real) returns (r: seq<Polygon>)
      requires Valid()
      ensures r == ClipPolygonsTree(Model(), ps, sqrt)
      decreases Repr
    {
      if plane.None? {
        return ps;
      }
      var f: seq<Polygon>, b: seq<Polygon> := [], [];
      for i := 0 to |ps|
        invariant (f, b) == ClipPartition(plane.value, ps[..i], sqrt)
      {
        assert ps[..i + 1][..i] == ps[..i];
        if ps[i].plane.Some? {
          var s := SplitPolygon(plane.value, ps[i], sqrt);
          f, b := f + s.coplanarFront + s.front, b + s.coplanarBack + s.back;
        }
      }
      assert ps[..|ps|] == ps;
      if front != null {
        f := front.ClipPolygons(f, sqrt);
      }
      if back != null {
        b := back.ClipPolygons(b, sqrt);
      } else {
        b := [];
      }
      r := f + b;
    }

    /** Replaces the node's own polygons; the subtrees are untouched. */
    method SetPolygons(ps: seq<Polygon>)
      requires Valid()
      modifies this
      ensures Valid() && Repr == old(Repr)
      ensures Model() == old(Model()).(polygons := ps)
    {
      polygons := ps;
    }

    /** `clipTo`: every node's polygons become what `bsp` leaves of them. */
    method ClipTo(bsp: BSPNode, sqrt: real -> real)
      requires Valid() && bsp.Valid() && Repr !! bsp.Repr
      modifies Repr
      ensures Valid() && Repr == old(Repr)
      ensures bsp.Valid() && bsp.Model() == old(bsp.Model())
      ensures Model() == ClipToTree(old(Model()), bsp.Model(), sqrt)
      decreases Repr, 1
    {
      ghost var t := Model();
      var clipped := bsp.ClipPolygons(polygons, sqrt);
      SetPolygons(clipped);
      assert Model() == t.(polygons := clipped);
      ClipFrontTo(bsp, sqrt);
      ClipBackTo(bsp, sqrt);
    }

    /** The front half of `clipTo`'s recursion. */
    method ClipFrontTo(bsp: BSPNode, sqrt: real -> real)
      requires Valid() && bsp.Valid() && Repr !! bsp.Repr
      modifies Repr
      ensures Valid() && Repr == old(Repr)
      ensures bsp.Valid() && bsp.Model() == old(bsp.Model())
      ensures var t := old(Model());
        Model() == t.(front := if t.front.Some? then Some(ClipToTree(t.front.value, bsp.Model(), sqrt)) else None)
      decreases Repr, 0
    {
      if front != null {
        front.ClipTo(bsp, sqrt);
      }
    }

    /** The back half of `clipTo`'s recursion. */
    method ClipBackTo(bsp: BSPNode, sqrt: real -> real)
      requires Valid() && bsp.Valid() && Repr !! bsp.Repr
      modifies Repr
      ensures Valid() && Repr == old(Repr)
      ensures bsp.Valid() && bsp.Model() == old(bsp.Model())
      ensures var t := old(Model());
        Model() == t.(back := if t.back.Some? then Some(ClipToTree(t.back.value, bsp.Model(), sqrt)) else None)
      decreases Repr, 0
    {
      if back != null {
        back.ClipTo(bsp, sqrt);
      }
    }

    /** `allPolygons`: every resident polygon, in pre-order; the tree is unchanged. */
    method AllPolygons() returns (r: seq<Polygon>)
      requires Valid()
      ensures r == BspTrees.AllPolygons(Model())
      decreases Repr
    {
      r := polygons;
      if front != null {
        var f := front.AllPolygons();
        r := r + f;
      }
      if back != null {
        var b := back.AllPolygons();
        r := r + b;
      }
    }

    /**
     * `build`: insert the valid polygons into the tree, giving the node a
     * plane if it has none, keeping the coplanar ones here and passing the
     * rest down, creating children as needed.
     */
    method Build(ps: seq<Polygon>, sqrt: real -> real, ghost fuel: nat)
      requires Valid()
      requires BuildTree(Model(), ps, sqrt, fuel).Some?
      modifies Repr
      ensures Valid() && fresh(Repr - old(Repr))
      ensures Model() == BuildTree(old(Model()), ps, sqrt, fuel).value
      decreases fuel, 0
    {
      var valid := ValidPolygons(ps);
      if |valid| == 0 {
        return;
      }
      BuildHere(valid, sqrt, fuel - 1);
    }

    /**
     * `build` once the list of valid polygons is known to be non-empty:
     * choose the plane if the node has none, then distribute; the children
     * are built with `fuel`.
     */
    method BuildHere(valid: seq<Polygon>, sqrt: real -> real, ghost fuel: nat)
      requires Valid() && |valid| > 0
      requires forall i :: 0 <= i < |valid| ==> valid[i].plane.Some?
      requires BuildNode(Model(), NodePlane(Model(), valid), valid, sqrt, fuel + 1).Some?
      modifies Repr
      ensures Valid() && fresh(Repr - old(Repr))
      ensures Model() == BuildNode(old(Model()), NodePlane(old(Model()), valid), valid, sqrt, fuel + 1).value
      decreases fuel, 4
    {
      if plane.None? {
        SetPlane(Some(valid[0].plane.value.Clone()));
      }
      Distribute(valid, sqrt, fuel);
    }

    /**
     * The rest of `build` once the node has its plane: split the valid
     * polygons by it, keep the coplanar ones here and build the children
     * with the front and back lists.
     */
    method Distribute(valid: seq<Polygon>, sqrt: real -> real, ghost fuel: nat)
      requires Valid() && plane.Some?
      requires forall i :: 0 <= i < |valid| ==> valid[i].plane.Some?
      requires var lists := BuildPartition(plane.value, valid, sqrt);
        && BuildChild(Model().front, lists.front, sqrt, fuel).Some?
        && BuildChild(Model().back, lists.back, sqrt, fuel).Some?
      modifies Repr
      ensures Valid() && fresh(Repr - old(Repr))
      ensures var t := old(Model());
        var lists := BuildPartition(t.plane.value, valid, sqrt);
        Model() == Node(t.plane, BuildChild(t.front, lists.front, sqrt, fuel).value,
                        BuildChild(t.back, lists.back, sqrt, fuel).value, t.polygons + lists.coplanar)
      decreases fuel, 3
    {
      var lists := PartitionForBuild(plane.value, valid, sqrt);
      SetPolygons(polygons + lists.coplanar);
      BuildFront(lists.front, sqrt, fuel);
      BuildBack(lists.back, sqrt, fuel);
    }

    /** The front half of `build`'s recursion: create the child if needed and build it with the front list. */
    method BuildFront(fs: seq<Polygon>, sqrt: real -> real, ghost fuel: nat)
      requires Valid()
      requires BuildChild(Model().front, fs, sqrt, fuel).Some?
      modifies Repr
      ensures Valid() && fresh(Repr - old(Repr))
      ensures Model() == old(Model()).(front := BuildChild(old(Model()).front, fs, sqrt, fuel).value)
      decreases fuel, 2
    {
      if |fs| > 0 {
        EnsureFront();
        BuildExistingFront(fs, sqrt, fuel);
      }
    }

    /** `if (!this.front) this.front = new BSPNode()`. */
    method EnsureFront()
      requires Valid()
      modifies this
      ensures Valid() && fresh(Repr - old(Repr)) && front != null
      ensures Model() == old(Model()).(front := Some(OrEmpty(old(Model()).front)))
    {
      if front == null {
        var c := new BSPNode.Empty();
        AttachFront(c);
      }
    }

    /** `this.front.build(...)` on an existing child. */
    method BuildExistingFront(ps: seq<Polygon>, sqrt: real -> real, ghost fuel: nat)
      requires Valid() && front != null
      requires BuildTree(front.Model(), ps, sqrt, fuel).Some?
      modifies Repr
      ensures Valid() && fresh(Repr - old(Repr))
      ensures Model() == old(Model()).(front := Some(BuildTree(old(front.Model()), ps, sqrt, fuel).value))
      decreases fuel, 1
    {
      front.Build(ps, sqrt, fuel);
      Repr := Repr + front.Repr;
    }

    /** The back half of `build`'s recursion. */
    method BuildBack(bs: seq<Polygon>, sqrt: real -> real, ghost fuel: nat)
      requires Valid()
      requires BuildChild(Model().back, bs, sqrt, fuel).Some?
      modifies Repr
      ensures Valid() && fresh(Repr - old(Repr))
      ensures Model() == old(Model()).(back := BuildChild(old(Model()).back, bs, sqrt, fuel).value)
      decreases fuel, 2
    {
      if |bs| > 0 {
        EnsureBack();
        BuildExistingBack(bs, sqrt, fuel);
      }
    }

    /** `if (!this.back) this.back = new BSPNode()`. */
    method EnsureBack()
      requires Valid()
      modifies this
      ensures Valid() && fresh(Repr - old(Repr)) && back != null
      ensures Model() == old(Model()).(back := Some(OrEmpty(old(Model()).back)))
    {
      if back == null {
        var c := new BSPNode.Empty();
        AttachBack(c);
      }
    }

    /** `this.back.build(...)` on an existing child. */
    method BuildExistingBack(ps: seq<Polygon>, sqrt: real -> real, ghost fuel: nat)
      requires Valid() && back != null
      requires BuildTree(back.Model(), ps, sqrt, fuel).Some?
      modifies Repr
      ensures Valid() && fresh(Repr - old(Repr))
      ensures Model() == old(Model()).(back := Some(BuildTree(old(back.Model()), ps, sqrt, fuel).value))
      decreases fuel, 1
    {
      back.Build(ps, sqrt, fuel);
      Repr := Repr + back.Repr;
    }
  }

  /** The loop of `build`: split every valid polygon by the node's plane, collecting the coplanar, front and back lists. */
  method PartitionForBuild(p: Plane, valid: seq<Polygon>, sqrt: real -> real) returns (lists: BuildLists)
    requires forall i :: 0 <= i < |valid| ==> valid[i].plane.Some?
    ensures lists == BuildPartition(p, valid, sqrt)
  {
    lists := BuildLists([], [], []);
    for i := 0 to |valid|
      invariant lists == BuildPartition(p, valid[..i], sqrt)
    {
      assert valid[..i + 1][..i] == valid[..i];
      var s := SplitPolygon(p, valid[i], sqrt);
      lists := BuildLists(lists.coplanar + s.coplanarFront + s.coplanarBack, lists.front + s.front, lists.back + s.back);
    }
    assert valid[..|valid|] == valid;
  }

  /** The loop of `invert` over the node's own polygons: flip each one. */
  method FlipPolygons(ps: seq<Polygon>) returns (r: seq<Polygon>)
    ensures r == FlipAll(ps)
  {
    r := ps;
    for i := 0 to |r|
      invariant |r| == |ps|
      invariant forall j :: 0 <= j < i ==> r[j] == ps[j].Flip()
      invariant forall j :: i <= j < |r| ==> r[j] == ps[j]
    {
      r := r[i := r[i].Flip()];
    }
  }
}
