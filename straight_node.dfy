/**
 * The lane waypoints of a straight road tile (node/straightNode.js): two lanes
 * each way, each lane given by the point where a vehicle enters the tile.
 */
module StraightNodes {
  import opened Points

  /** `straightNode`'s default orientation when the caller leaves `isVertical` out. */
  const DefaultIsVertical := false

  /** Every straight waypoint covers one tile. */
  const StraightLength := 1.0

  /**
   * `straightNode({ isVertical, location })`: four waypoints, all one tile long.
   * Vertical: two on the top edge heading 270 left of the centre line and two on
   * the bottom edge heading 90 right of it.  Horizontal: two on the right edge
   * heading 180 above the centre line and two on the left edge heading 0 below it.
   */
  function StraightNode(isVertical: bool, location: XY): (r: seq<Waypoint>)
    ensures |r| == 4
    ensures forall i :: 0 <= i < 4 ==> r[i].length == StraightLength
  {
    var x, y := location.x, location.y;
    if isVertical then
      [ Waypoint(x - 0.16, y - 0.5, 270.0, StraightLength),
        Waypoint(x - 0.05, y - 0.5, 270.0, StraightLength),
        Waypoint(x + 0.05, y + 0.5, 90.0, StraightLength),
        Waypoint(x + 0.17, y + 0.5, 90.0, StraightLength) ]
    else
      [ Waypoint(x + 0.5, y - 0.16, 180.0, StraightLength),
        Waypoint(x + 0.5, y - 0.05, 180.0, StraightLength),
        Waypoint(x - 0.5, y + 0.05, 0.0, StraightLength),
        Waypoint(x - 0.5, y + 0.16, 0.0, StraightLength) ]
  }

  /** How far waypoint `w` sits from `location` across the road, and along it. */
  function Across(isVertical: bool, location: XY, w: Waypoint): real
  {
    if isVertical then w.x - location.x else w.y - location.y
  }

  function Along(isVertical: bool, location: XY, w: Waypoint): real
  {
    if isVertical then w.y - location.y else w.x - location.x
  }

  /**
   * The first two waypoints enter on one edge of the tile and the last two on the
   * opposite edge, half a tile from the centre, and the two pairs head in opposite
   * directions.
   */
  lemma PairsFaceEachOther(isVertical: bool, location: XY)
    ensures var r := StraightNode(isVertical, location);
      && Along(isVertical, location, r[0]) == Along(isVertical, location, r[1]) == -Along(isVertical, location, r[2])
      && Along(isVertical, location, r[2]) == Along(isVertical, location, r[3])
      && (Along(isVertical, location, r[0]) == 0.5 || Along(isVertical, location, r[0]) == -0.5)
      && r[0].yRotation == r[1].yRotation && r[2].yRotation == r[3].yRotation
      && (r[0].yRotation - r[2].yRotation == 180.0)
  {
  }

  /**
   * The lanes lie strictly in order across the road, the first pair on one side of
   * the centre line and the second pair on the other.
   */
  lemma LanesInOrder(isVertical: bool, location: XY)
    ensures var r := StraightNode(isVertical, location);
      forall i, j :: 0 <= i < j < 4 ==> Across(isVertical, location, r[i]) < Across(isVertical, location, r[j])
    ensures var r := StraightNode(isVertical, location);
      && Across(isVertical, location, r[1]) < 0.0 < Across(isVertical, location, r[2])
  {
  }

  /** Horizontally the lanes are placed symmetrically about the centre line. */
  lemma HorizontalSymmetric(location: XY)
    ensures var r := StraightNode(false, location);
      forall i :: 0 <= i < 4 ==> Across(false, location, r[i]) == -Across(false, location, r[3 - i])
  {
  }

  /** Vertically they are not: the outer lanes sit 0.16 and 0.17 from the centre line. */
  lemma VerticalAsymmetric(location: XY)
    ensures var r := StraightNode(true, location);
      Across(true, location, r[0]) != -Across(true, location, r[3])
    ensures var r := StraightNode(true, location);
      Across(true, location, r[1]) == -Across(true, location, r[2])
  {
  }
}
