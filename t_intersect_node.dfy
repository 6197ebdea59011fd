/**
 * The lane waypoints of a T-junction tile (node/TIntersectNode.js): two curves and
 * one straight, chosen by the tile's angle.
 */
module TIntersectNodes {
  import opened Points
  import StraightNodes
  import CurveNodes

  /** `TIntersectNode`'s default angle when the caller leaves it out. */
  const DefaultAngle := 0

  /** The if-chain of `TIntersectNode`; an angle it does not list gives no waypoints. */
  function TIntersectNode(m: Numerics, location: XY, angle: int): (r: seq<Waypoint>)
    ensures angle !in {0, 90, 180, 270} <==> r == []
    ensures angle in {0, 90, 180, 270} ==> |r| == 42
  {
    if angle == 0 then
      CurveNodes.CurveNode(m, 360, location) + CurveNodes.CurveNode(m, 90, location)
        + StraightNodes.StraightNode(true, location)
    else if angle == 90 then
      CurveNodes.CurveNode(m, 90, location) + CurveNodes.CurveNode(m, 180, location)
        + StraightNodes.StraightNode(false, location)
    else if angle == 180 then
      CurveNodes.CurveNode(m, 180, location) + CurveNodes.CurveNode(m, 270, location)
        + StraightNodes.StraightNode(true, location)
    else if angle == 270 then
      CurveNodes.CurveNode(m, 270, location) + CurveNodes.CurveNode(m, 360, location)
        + StraightNodes.StraightNode(false, location)
    else
      []
  }

  /**
   * For each listed angle the junction is the curve at that angle (360 for 0), the
   * curve a quarter turn further, and the straight that is vertical exactly for 0
   * and 180; so its pieces sit at 0..18, 19..37 and 38..41.
   */
  lemma TIntersectPieces(m: Numerics, location: XY, angle: int)
    requires angle in {0, 90, 180, 270}
    ensures var r := TIntersectNode(m, location, angle);
      && r[..19] == CurveNodes.CurveNode(m, if angle == 0 then 360 else angle, location)
      && r[19..38] == CurveNodes.CurveNode(m, angle + 90, location)
      && r[38..] == StraightNodes.StraightNode(angle == 0 || angle == 180, location)
  {
    var first := CurveNodes.CurveNode(m, if angle == 0 then 360 else angle, location);
    var second := CurveNodes.CurveNode(m, angle + 90, location);
    var straight := StraightNodes.StraightNode(angle == 0 || angle == 180, location);
    assert TIntersectNode(m, location, angle) == first + second + straight;
    Split(first, second, straight);
  }

  /** Cutting a three-part concatenation at the part lengths gives the parts back. */
  lemma Split(a: seq<Waypoint>, b: seq<Waypoint>, c: seq<Waypoint>)
    requires |a| == 19 && |b| == 19
    ensures (a + b + c)[..19] == a && (a + b + c)[19..38] == b && (a + b + c)[38..] == c
  {
    assert (a + b + c)[..19] == a;
    assert (a + b + c)[19..38] == b;
    assert (a + b + c)[38..] == c;
  }
}
