/** The value types of datatypes.py and of the map records: points, boxes
    and the built BSP tree. */
module Datatypes {

  /** A map-space point or vector (pygame's vec2 holding int16 values). */
  datatype Vec2 = Vec2(x: int, y: int)

  /** A bounding box as the NODES lump stores it: (left, top) then
      (right, bottom). */
  datatype Box = Box(topLeft: Vec2, bottomRight: Vec2) {
    function Left(): int { topLeft.x }
    function Top(): int { topLeft.y }
    function Right(): int { bottomRight.x }
    function Bottom(): int { bottomRight.y }
  }

  /** A built tree node (tree_node with TYPE 0 and its tree_data, or TYPE 1
      with a subsector index as DATA). PARENT and ID are not kept. */
  datatype Node =
    | Internal(start: Vec2, diff: Vec2, rbox: Box, lbox: Box, left: Node, right: Node)
    | Leaf(ssector: int)
}
