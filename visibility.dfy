/** The BSP visibility query of renderer.py: the side test against a node's
    splitter, the field-of-view test on a child's bounding box, and the
    tree walk that collects the subsectors to draw. */
module Visibility {
  import opened Base
  import opened Datatypes
  import opened WadTree

  /** The player as the walk sees it: a position, and the angular check of
      __bbox_in_fov. That check takes the atan2 bearing in degrees of two
      box corners, compares them with the facing angle and the field of
      view, and says whether the pair lies wholly outside the view; it is
      floating point and is kept abstract here. */
  datatype Viewer = Viewer(pos: Vec2, rejected: (Vec2, Vec2) -> bool)

  // ---------------------------------------------------------------------
  // __position_on_backside_of_node

  /** The 2D cross product of (v - start) with the splitter direction. */
  function Cross(start: Vec2, diff: Vec2, v: Vec2): int
  {
    (v.x - start.x) * diff.y - (v.y - start.y) * diff.x
  }

  /** The side test: a subsector leaf raises; otherwise the viewer is on the
      back side when the cross product is not positive. */
  function OnBackSide(node: Node, pos: Vec2): (r: Result<bool>)
    ensures r.Fail? <==> node.Leaf?
    ensures r.Fail? ==> r.error == LeafPassed
  {
    if node.Leaf? then Fail(LeafPassed)
    else Ok(Cross(node.start, node.diff, pos) <= 0)
  }

  /** A viewer standing on the splitter's start is on the back side. */
  lemma BackSideAtStart(node: Node)
    requires node.Internal?
    ensures OnBackSide(node, node.start) == Ok(true)
  {
  }

  /** Only the distance across the splitter matters: moving the viewer by
      any multiple of the direction leaves the side unchanged. */
  lemma BackSideAlongSplitter(node: Node, pos: Vec2, k: int)
    requires node.Internal?
    ensures OnBackSide(node, Vec2(pos.x + k * node.diff.x, pos.y + k * node.diff.y))
            == OnBackSide(node, pos)
  {
    var d := node.diff;
    var n := Vec2(pos.x - node.start.x, pos.y - node.start.y);
    calc {
      Cross(node.start, d, Vec2(pos.x + k * d.x, pos.y + k * d.y));
      (n.x + k * d.x) * d.y - (n.y + k * d.y) * d.x;
      { assert (n.x + k * d.x) * d.y == n.x * d.y + k * (d.x * d.y);
        assert (n.y + k * d.y) * d.x == n.y * d.x + k * (d.x * d.y); }
      n.x * d.y - n.y * d.x;
    }
  }

  /** Reversing the splitter swaps the sides: a viewer is on the back side
      of both directions exactly when it is on the splitter's line. */
  lemma BackSideReversed(node: Node, pos: Vec2)
    requires node.Internal?
    ensures var rev := node.(diff := Vec2(-node.diff.x, -node.diff.y));
            OnBackSide(node, pos).value && OnBackSide(rev, pos).value
            <==> Cross(node.start, node.diff, pos) == 0
  {
    var d := node.diff;
    var n := Vec2(pos.x - node.start.x, pos.y - node.start.y);
    assert Cross(node.start, Vec2(-d.x, -d.y), pos) == -(n.x * d.y - n.y * d.x);
  }

  // ---------------------------------------------------------------------
  // __bbox_in_fov

  /** The viewer lies within the box's closed extents. */
  predicate Inside(box: Box, p: Vec2)
  {
    box.Left() <= p.x <= box.Right() && box.Bottom() <= p.y <= box.Top()
  }

  /** The four sides of the box as corner pairs, going round it
      anticlockwise: k = 0 the left side (top-left to bottom-left), 1 the top
      (top-right to top-left), 2 the bottom (bottom-left to bottom-right),
      3 the right side (bottom-right to top-right). */
  function Edge(box: Box, k: int): (Vec2, Vec2)
    requires 0 <= k < 4
  {
    var a := Vec2(box.Left(), box.Bottom());
    var b := Vec2(box.Left(), box.Top());
    var c := Vec2(box.Right(), box.Top());
    var d := Vec2(box.Right(), box.Bottom());
    if k == 0 then (b, a) else if k == 1 then (c, b) else if k == 2 then (a, d) else (d, c)
  }

  /** The viewer is strictly beyond side k of the box. */
  predicate Faces(box: Box, p: Vec2, k: int)
    requires 0 <= k < 4
  {
    if k == 0 then p.x < box.Left()
    else if k == 1 then p.y > box.Top()
    else if k == 2 then p.y < box.Bottom()
    else p.x > box.Right()
  }

  /** The corner pairs __bbox_in_fov checks, chosen by the region around
      the box the viewer is in: none inside the box, one beside an edge,
      two beyond a corner. */
  function Sides(box: Box, p: Vec2): (r: seq<(Vec2, Vec2)>)
    ensures r == [] <==> Inside(box, p)
    ensures |r| == 2 <==> (p.x < box.Left() || p.x > box.Right()) && (p.y > box.Top() || p.y < box.Bottom())
    ensures |r| <= 2
    ensures forall e :: e in r ==> exists k :: 0 <= k < 4 && e == Edge(box, k)
  {
    var a := Vec2(box.Left(), box.Bottom());
    var b := Vec2(box.Left(), box.Top());
    var c := Vec2(box.Right(), box.Top());
    var d := Vec2(box.Right(), box.Bottom());
    assert (b, a) == Edge(box, 0) && (c, b) == Edge(box, 1);
    assert (a, d) == Edge(box, 2) && (d, c) == Edge(box, 3);
    if p.x < box.Left() then
      if p.y > box.Top() then [(b, a), (c, b)]
      else if p.y < box.Bottom() then [(b, a), (a, d)]
      else [(b, a)]
    else if p.x > box.Right() then
      if p.y > box.Top() then [(c, b), (d, c)]
      else if p.y < box.Bottom() then [(a, d), (d, c)]
      else [(d, c)]
    else if p.y > box.Top() then [(c, b)]
    else if p.y < box.Bottom() then [(a, d)]
    else []
  }

  /** For a box with area, the pairs checked are exactly the sides the
      viewer is beyond. */
  lemma SidesAreFacingEdges(box: Box, p: Vec2)
    requires box.Left() < box.Right() && box.Bottom() < box.Top()
    ensures forall k :: 0 <= k < 4 ==> (Edge(box, k) in Sides(box, p) <==> Faces(box, p, k))
  {
  }

  /** Read as a splitter from its first corner to its second, every pair
      checked has the viewer on its front side. */
  lemma SidesFaceViewer(box: Box, p: Vec2)
    requires box.Left() < box.Right() && box.Bottom() < box.Top()
    ensures forall e :: e in Sides(box, p) ==>
              Cross(e.0, Vec2(e.1.x - e.0.x, e.1.y - e.0.y), p) > 0
  {
    var l, t, r, b := box.Left(), box.Top(), box.Right(), box.Bottom();
    forall e | e in Sides(box, p)
      ensures Cross(e.0, Vec2(e.1.x - e.0.x, e.1.y - e.0.y), p) > 0
    {
      if e == Edge(box, 0) {
        assert Cross(e.0, Vec2(e.1.x - e.0.x, e.1.y - e.0.y), p) == (l - p.x) * (t - b);
        Positive(l - p.x, t - b);
      } else if e == Edge(box, 1) {
        assert Cross(e.0, Vec2(e.1.x - e.0.x, e.1.y - e.0.y), p) == (p.y - t) * (r - l);
        Positive(p.y - t, r - l);
      } else if e == Edge(box, 2) {
        assert Cross(e.0, Vec2(e.1.x - e.0.x, e.1.y - e.0.y), p) == (b - p.y) * (r - l);
        Positive(b - p.y, r - l);
      } else {
        assert e == Edge(box, 3);
        assert Cross(e.0, Vec2(e.1.x - e.0.x, e.1.y - e.0.y), p) == (p.x - r) * (t - b);
        Positive(p.x - r, t - b);
      }
    }
  }

  lemma Positive(x: int, y: int)
    requires x > 0 && y > 0
    ensures x * y > 0
  {
  }

  /** __bbox_in_fov as a value: inside the box, or some checked pair is not
      rejected. */
  predicate InFov(box: Box, v: Viewer)
  {
    Inside(box, v.pos) || exists e :: e in Sides(box, v.pos) && !v.rejected(e.0, e.1)
  }

  /** For a box with area: visible exactly when the viewer is inside, or
      beyond some side whose corners the angular check does not reject. */
  lemma InFovByFacing(box: Box, v: Viewer)
    requires box.Left() < box.Right() && box.Bottom() < box.Top()
    ensures InFov(box, v) <==>
              Inside(box, v.pos)
              || exists k :: 0 <= k < 4 && Faces(box, v.pos, k) && !v.rejected(Edge(box, k).0, Edge(box, k).1)
  {
    SidesAreFacingEdges(box, v.pos);
  }

  /** __bbox_in_fov: the region selection, then the loop over the pairs
      that returns on the first pair not rejected. */
  method BoxInFov(box: Box, viewer: Viewer) returns (r: bool)
    ensures r == InFov(box, viewer)
    ensures Inside(box, viewer.pos) ==> r
  {
    var p := viewer.pos;
    if Inside(box, p) {
      return true;
    }
    var sides := Sides(box, p);
    for k := 0 to |sides|
      invariant forall j :: 0 <= j < k ==> viewer.rejected(sides[j].0, sides[j].1)
    {
      if !viewer.rejected(sides[k].0, sides[k].1) {
        return true;
      }
    }
    return false;
  }

  // ---------------------------------------------------------------------
  // __walk_tree

  /** The `ssectors` dictionary of __walk_tree: subsector indices collected
      under 'LEFT' and under 'RIGHT'. */
  datatype Found = Found(left: seq<int>, right: seq<int>)

  /** One dictionary's lists appended to another's, side by side. */
  function Merge(a: Found, b: Found): Found
  {
    Found(a.left + b.left, a.right + b.right)
  }

  /** __walk_tree. The near child (left on the back side, right on the
      front) is walked first; the far child's box, stored on this node, must
      pass the field-of-view test before the far side is visited. A near
      child that is a leaf is the whole answer, and on the front side a far
      left child that is a leaf is never collected. */
  function Walk(t: Node, v: Viewer): (r: Result<Found>)
    ensures r.Fail? <==> t.Leaf?
    decreases t
  {
    if t.Leaf? then Fail(LeafPassed)
    else
      if OnBackSide(t, v.pos).value then
        if t.left.Internal? then
          var near := Walk(t.left, v).value;
          if !InFov(t.rbox, v) then Ok(near)
          else if t.right.Internal? then
            var far := Walk(t.right, v).value;
            Ok(Merge(near, far))
          else Ok(Found(near.left, near.right + [t.right.ssector]))
        else Ok(Found([t.left.ssector], []))
      else
        if t.right.Internal? then
          var near := Walk(t.right, v).value;
          if InFov(t.lbox, v) && t.left.Internal? then
            var far := Walk(t.left, v).value;
            Ok(Merge(near, far))
          else Ok(near)
        else Ok(Found([], [t.right.ssector]))
  }

  /** The subsectors of leaves hanging as a left child somewhere in t. */
  function LeftLeaves(t: Node): set<int>
    decreases t
  {
    match t
    case Leaf(_) => {}
    case Internal(_, _, _, _, l, r) =>
      (if l.Leaf? then {l.ssector} else {}) + LeftLeaves(l) + LeftLeaves(r)
  }

  /** The subsectors of leaves hanging as a right child somewhere in t. */
  function RightLeaves(t: Node): set<int>
    decreases t
  {
    match t
    case Leaf(_) => {}
    case Internal(_, _, _, _, l, r) =>
      (if r.Leaf? then {r.ssector} else {}) + RightLeaves(l) + RightLeaves(r)
  }

  /** Every leaf of an internal node is a left or a right child. */
  lemma {:induction false} LeavesBySide(t: Node)
    requires t.Internal?
    ensures LeftLeaves(t) + RightLeaves(t) == LeafSubsectors(t)
    decreases t
  {
    if t.left.Internal? {
      LeavesBySide(t.left);
    }
    if t.right.Internal? {
      LeavesBySide(t.right);
    }
  }

  /** Every index the walk returns is a subsector of the tree, and its list
      is the side its leaf hangs on below its own parent: 'LEFT' holds left
      children, 'RIGHT' right children, at any depth. */
  lemma {:induction false} WalkLabels(t: Node, v: Viewer)
    requires t.Internal?
    ensures forall s :: s in Walk(t, v).value.left ==> s in LeftLeaves(t)
    ensures forall s :: s in Walk(t, v).value.right ==> s in RightLeaves(t)
    decreases t
  {
    if t.left.Internal? {
      WalkLabels(t.left, v);
    }
    if t.right.Internal? {
      WalkLabels(t.right, v);
    }
  }

  /** The far side is gated by its box: when the near child is a leaf it is
      the whole answer, in the list of its side; when the far box fails the
      test, or on the front side the far child is a leaf, the answer is the
      near child's. */
  lemma FarSideGate(t: Node, v: Viewer)
    requires t.Internal?
    ensures var back := Cross(t.start, t.diff, v.pos) <= 0;
            (back && t.left.Leaf? ==> Walk(t, v) == Ok(Found([t.left.ssector], [])))
            && (!back && t.right.Leaf? ==> Walk(t, v) == Ok(Found([], [t.right.ssector])))
            && (back && t.left.Internal? && !InFov(t.rbox, v) ==> Walk(t, v) == Walk(t.left, v))
            && (!back && t.right.Internal? && (!InFov(t.lbox, v) || t.left.Leaf?)
                ==> Walk(t, v) == Walk(t.right, v))
  {
  }

  /** Near before far: the near child's lists start each of the node's
      lists. */
  lemma WalkNearFirst(t: Node, v: Viewer)
    requires t.Internal?
    ensures var near := if Cross(t.start, t.diff, v.pos) <= 0 then t.left else t.right;
            near.Internal? ==>
              var w, n := Walk(t, v).value, Walk(near, v).value;
              n.left <= w.left && n.right <= w.right
  {
  }

  /** The leaf the viewer stands in, found by the same side tests, and
      whether it is a left child. */
  function ViewerCell(t: Node, p: Vec2): (int, bool)
    requires t.Internal?
    decreases t
  {
    if Cross(t.start, t.diff, p) <= 0 then
      if t.left.Leaf? then (t.left.ssector, true) else ViewerCell(t.left, p)
    else
      if t.right.Leaf? then (t.right.ssector, false) else ViewerCell(t.right, p)
  }

  /** Whatever the facing and the boxes, the viewer's own subsector is
      collected, and it comes first in its list. */
  lemma {:induction false} ViewerCellFirst(t: Node, v: Viewer)
    requires t.Internal?
    ensures var w := Walk(t, v).value;
            var (s, isLeft) := ViewerCell(t, v.pos);
            if isLeft then |w.left| > 0 && w.left[0] == s else |w.right| > 0 && w.right[0] == s
    decreases t
  {
    if Cross(t.start, t.diff, v.pos) <= 0 {
      if t.left.Internal? {
        ViewerCellFirst(t.left, v);
      }
    } else {
      if t.right.Internal? {
        ViewerCellFirst(t.right, v);
      }
    }
  }

  /** The `for side, values in wres.items()` loops: each list of the
      recursive result appended element by element to the same side. */
  method Absorb(acc: Found, res: Found) returns (r: Found)
    ensures r == Merge(acc, res)
  {
    r := acc;
    for k := 0 to |res.right|
      invariant r == Found(acc.left, acc.right + res.right[..k])
    {
      assert res.right[..k + 1] == res.right[..k] + [res.right[k]];
      r := r.(right := r.right + [res.right[k]]);
    }
    assert res.right[..|res.right|] == res.right;
    for k := 0 to |res.left|
      invariant r == Found(acc.left + res.left[..k], acc.right + res.right)
    {
      assert res.left[..k + 1] == res.left[..k] + [res.left[k]];
      r := r.(left := r.left + [res.left[k]]);
    }
    assert res.left[..|res.left|] == res.left;
  }

  /** __walk_tree, appending into its dictionary as the source does. */
  method WalkTree(t: Node, v: Viewer) returns (r: Result<Found>)
    ensures r == Walk(t, v)
    decreases t
  {
    var ssectors := Found([], []);
    if t.Leaf? {
      return Fail(LeafPassed);
    }
    var back := OnBackSide(t, v.pos);
    if back.value {
      if t.left.Internal? {
        var wres := WalkTree(t.left, v);
        ssectors := Absorb(ssectors, wres.value);
        assert ssectors == wres.value;
        var visible := BoxInFov(t.rbox, v);
        if visible {
          if t.right.Internal? {
            var far := WalkTree(t.right, v);
            ssectors := Absorb(ssectors, far.value);
          } else {
            ssectors := ssectors.(right := ssectors.right + [t.right.ssector]);
          }
        }
      } else {
        ssectors := ssectors.(left := ssectors.left + [t.left.ssector]);
        assert ssectors == Found([t.left.ssector], []);
      }
    } else {
      if t.right.Internal? {
        var wres := WalkTree(t.right, v);
        ssectors := Absorb(ssectors, wres.value);
        assert ssectors == wres.value;
        var visible := BoxInFov(t.lbox, v);
        if visible {
          if t.left.Internal? {
            var far := WalkTree(t.left, v);
            ssectors := Absorb(ssectors, far.value);
          }
        }
      } else {
        ssectors := ssectors.(right := ssectors.right + [t.right.ssector]);
        assert ssectors == Found([], [t.right.ssector]);
      }
    }
    return Ok(ssectors);
  }
}
