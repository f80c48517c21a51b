/** Building the BSP tree from the NODES records (WADMap.__build_tree and
    __make_node in wadfile.py). */
module WadTree {
  import opened Base
  import opened Datatypes
  import opened WadRecords

  /** Bit 15 of a child reference marks a subsector. */
  const SubsectorBit := 32768

  /** __make_node: a reference with bit 15 set becomes a subsector leaf;
      any other is looked up in the record list (a Python subscript, so a
      bad index raises) and its left child (the record's last field) is
      built before its right child. Python's recursion limit is modelled by
      `fuel`, one unit per record entered. */
  function MakeNode(nodes: seq<RawNode>, i: int, fuel: nat): (r: Result<Node>)
    ensures i >= SubsectorBit ==> r == Ok(Leaf(i - SubsectorBit))
    ensures i < SubsectorBit && r.Ok? ==>
              PyIndex(nodes, i).Ok? && 0 < fuel && r.value.Internal?
              && var m := PyIndex(nodes, i).value;
              && r.value.start == m.start && r.value.diff == m.diff
              && r.value.rbox == m.rightBox && r.value.lbox == m.leftBox
    ensures r.Fail? ==> r.error == IndexOutOfRange || r.error == RecursionLimit
    ensures i < SubsectorBit && !(-|nodes| <= i < |nodes|) ==> r == Fail(IndexOutOfRange)
    decreases fuel
  {
    if i >= SubsectorBit then Ok(Leaf(i - SubsectorBit))
    else
      var m :- PyIndex(nodes, i);
      if fuel == 0 then Fail(RecursionLimit)
      else
        var left :- MakeNode(nodes, m.leftChild, fuel - 1);
        var right :- MakeNode(nodes, m.rightChild, fuel - 1);
        Ok(Internal(m.start, m.diff, m.rightBox, m.leftBox, left, right))
  }

  /** __build_tree: the root is the last record. A tree has at most one
      record per level on any path, so a recursion deeper than the record
      count means the references loop. */
  function BuildTree(nodes: seq<RawNode>): (r: Result<Node>)
    ensures nodes == [] ==> r == Fail(IndexOutOfRange)
    ensures r.Fail? ==> r.error == IndexOutOfRange || r.error == RecursionLimit
    ensures r.Ok? && |nodes| <= SubsectorBit ==>
              var last := nodes[|nodes| - 1];
              r.value.Internal? && r.value.start == last.start && r.value.diff == last.diff
              && r.value.rbox == last.rightBox && r.value.lbox == last.leftBox
  {
    MakeNode(nodes, |nodes| - 1, |nodes|)
  }

  /** The number of records on the longest path from the root. */
  function Depth(t: Node): nat
  {
    match t
    case Leaf(_) => 0
    case Internal(_, _, _, _, left, right) => 1 + Max(Depth(left), Depth(right))
  }

  /** The independent description of a built tree: reference i denotes t
      when t is the subsector leaf it flags, or when the record it indexes
      carries t's splitter and boxes and its children denote t's children. */
  ghost predicate Encodes(nodes: seq<RawNode>, i: int, t: Node)
    decreases t
  {
    if i >= SubsectorBit then t == Leaf(i - SubsectorBit)
    else
      PyIndex(nodes, i).Ok? && t.Internal?
      && var m := PyIndex(nodes, i).value;
      && t.start == m.start && t.diff == m.diff && t.rbox == m.rightBox && t.lbox == m.leftBox
      && Encodes(nodes, m.leftChild, t.left) && Encodes(nodes, m.rightChild, t.right)
  }

  /** Whatever __make_node builds is the tree the records describe, no
      deeper than the recursion allowed. */
  lemma {:induction false} MakeNodeSound(nodes: seq<RawNode>, i: int, fuel: nat)
    requires MakeNode(nodes, i, fuel).Ok?
    ensures Encodes(nodes, i, MakeNode(nodes, i, fuel).value)
    ensures Depth(MakeNode(nodes, i, fuel).value) <= fuel
    decreases fuel
  {
    if i < SubsectorBit {
      var m := PyIndex(nodes, i).value;
      MakeNodeSound(nodes, m.leftChild, fuel - 1);
      MakeNodeSound(nodes, m.rightChild, fuel - 1);
    }
  }

  /** ... and every tree the records describe is built, given recursion
      room for its depth. */
  lemma {:induction false} MakeNodeComplete(nodes: seq<RawNode>, i: int, t: Node, fuel: nat)
    requires Encodes(nodes, i, t) && Depth(t) <= fuel
    ensures MakeNode(nodes, i, fuel) == Ok(t)
    decreases t
  {
    if i < SubsectorBit {
      var m := PyIndex(nodes, i).value;
      MakeNodeComplete(nodes, m.leftChild, t.left, fuel - 1);
      MakeNodeComplete(nodes, m.rightChild, t.right, fuel - 1);
    }
  }

  /** A reference describes at most one tree. */
  lemma {:induction false} EncodesUnique(nodes: seq<RawNode>, i: int, t: Node, u: Node)
    requires Encodes(nodes, i, t) && Encodes(nodes, i, u)
    ensures t == u
    decreases t
  {
    if i < SubsectorBit {
      var m := PyIndex(nodes, i).value;
      EncodesUnique(nodes, m.leftChild, t.left, u.left);
      EncodesUnique(nodes, m.rightChild, t.right, u.right);
    }
  }

  /** The order node builders write NODES in: every record's child
      records come before it. */
  ghost predicate ChildrenPrecede(nodes: seq<RawNode>)
  {
    forall k :: 0 <= k < |nodes| ==>
      (nodes[k].leftChild < SubsectorBit ==> 0 <= nodes[k].leftChild < k)
      && (nodes[k].rightChild < SubsectorBit ==> 0 <= nodes[k].rightChild < k)
  }

  /** With children first, record i builds within i + 1 levels. */
  lemma {:induction false} PrecedingChildrenBuild(nodes: seq<RawNode>, i: int, fuel: nat)
    requires ChildrenPrecede(nodes)
    requires i >= SubsectorBit || 0 <= i < |nodes|
    requires i < SubsectorBit ==> i < fuel
    ensures MakeNode(nodes, i, fuel).Ok?
    decreases fuel
  {
    if i < SubsectorBit {
      var m := nodes[i];
      PrecedingChildrenBuild(nodes, m.leftChild, fuel - 1);
      PrecedingChildrenBuild(nodes, m.rightChild, fuel - 1);
    }
  }

  /** A non-empty NODES lump in builder order always yields a tree, rooted
      at the last record. */
  lemma BuildTreeSucceeds(nodes: seq<RawNode>)
    requires 0 < |nodes| <= SubsectorBit && ChildrenPrecede(nodes)
    ensures BuildTree(nodes).Ok?
    ensures var t := BuildTree(nodes).value;
            t.Internal? && t.start == nodes[|nodes| - 1].start && t.diff == nodes[|nodes| - 1].diff
            && t.rbox == nodes[|nodes| - 1].rightBox && t.lbox == nodes[|nodes| - 1].leftBox
  {
    PrecedingChildrenBuild(nodes, |nodes| - 1, |nodes|);
  }

  /** An empty NODES lump fails on the subscript `nodemap[-1]`. */
  lemma BuildTreeEmpty()
    ensures BuildTree([]) == Fail(IndexOutOfRange)
  {
  }

  /** A record that is its own child makes the recursion run out. */
  lemma SelfLoopFails(nodes: seq<RawNode>, i: nat, fuel: nat)
    requires i < |nodes| && i < SubsectorBit && nodes[i].leftChild == i
    ensures MakeNode(nodes, i, fuel) == Fail(RecursionLimit)
    decreases fuel
  {
    if fuel > 0 {
      SelfLoopFails(nodes, i, fuel - 1);
    }
  }

  /** The subsector numbers in a tree. */
  function LeafSubsectors(t: Node): set<int>
  {
    match t
    case Leaf(s) => {s}
    case Internal(_, _, _, _, left, right) => LeafSubsectors(left) + LeafSubsectors(right)
  }

  /** Child references are unsigned shorts, so every leaf of a built tree
      names a subsector between 0 and 32767. */
  lemma {:induction false} LeafRange(nodes: seq<RawNode>, i: int, t: Node)
    requires i <= 0xFFFF && Encodes(nodes, i, t)
    requires forall k :: 0 <= k < |nodes| ==> nodes[k].leftChild <= 0xFFFF && nodes[k].rightChild <= 0xFFFF
    ensures forall s :: s in LeafSubsectors(t) ==> 0 <= s < SubsectorBit
    decreases t
  {
    if i < SubsectorBit {
      var m := PyIndex(nodes, i).value;
      assert m in nodes;
      LeafRange(nodes, m.leftChild, t.left);
      LeafRange(nodes, m.rightChild, t.right);
    }
  }
}
