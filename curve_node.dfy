/**
 * The lane waypoints of a curved road tile (node/curveNode.js): four lanes, each a
 * quarter arc sampled by `getPoints`, turned to the tile's angle and translated to
 * its location.
 */
module CurveNodes {
  import opened Points

  /** `curveNode`'s default angle when the caller leaves it out. */
  const DefaultAngle := 90

  /** The angle the arcs are drawn at, and the offset the points are shifted by. */
  datatype Turn = Turn(angle: int, offset: XY)

  /**
   * The if-chain at the top of `curveNode`: the four quarter turns map to
   * 360 - angle, each with its own corner offset; any other angle is kept, with the
   * offset (-1, 1).
   */
  function Remap(angle: int): (t: Turn)
    ensures angle in {90, 180, 270, 360} ==> t.angle == 360 - angle
    ensures angle !in {90, 180, 270, 360} ==> t == Turn(angle, XY(-1.0, 1.0))
    ensures t.offset.x == (if angle in {180, 270} then 0.0 else -1.0)
    ensures t.offset.y == (if angle in {270, 360} then 0.0 else 1.0)
  {
    if angle == 90 then Turn(270, XY(-1.0, 1.0))
    else if angle == 180 then Turn(180, XY(0.0, 1.0))
    else if angle == 270 then Turn(90, XY(0.0, 0.0))
    else if angle == 360 then Turn(0, XY(-1.0, 0.0))
    else Turn(angle, XY(-1.0, 1.0))
  }

  /** The four quarter turns are exchanged in pairs by the remap: 90 with 270, 180 and 360 each with the other end of the turn. */
  lemma RemapIsReflection(angle: int)
    requires angle in {90, 180, 270}
    ensures Remap(angle).angle + angle == 360 && Remap(360 - angle).angle == angle
  {
  }

  /**
   * `arrPoints`: the four lanes from the inside out, at radii given by `a` and `b`.
   * None passes an offset, so `getPoints` uses its default.
   */
  function CurveArcs(angle: int): (r: seq<Arc>)
    ensures |r| == 4
    ensures forall k :: 0 <= k < 4 ==> r[k].angle == angle as real && r[k].offset == DefaultArc(r[k].a, r[k].b).offset
    ensures r[0].direction == r[1].direction == 1.0 && r[2].direction == r[3].direction == -1.0
    ensures r[0].deviceTo == 4 && r[1].deviceTo == r[2].deviceTo == r[3].deviceTo == 5
  {
    [ DefaultArc(XY(0.34, 0.0), XY(0.0, -0.1)).(angle := angle as real, deviceTo := 4),
      DefaultArc(XY(0.45, 0.0), XY(0.0, -0.11)).(angle := angle as real, deviceTo := 5),
      DefaultArc(XY(0.55, 0.0), XY(0.0, 0.1)).(angle := angle as real, deviceTo := 5, direction := -1.0),
      DefaultArc(XY(0.66, 0.0), XY(0.0, 0.1)).(angle := angle as real, deviceTo := 5, direction := -1.0) ]
  }

  /** The `map` callback: a step translated by `location + offset`, heading the opposite way. */
  function PlaceStep(s: Step, location: XY, offset: XY): Waypoint
  {
    Waypoint(s.x + location.x + offset.x, s.y + location.y + offset.y, -s.angle, s.length)
  }

  /** One arc's steps, placed. */
  function Place(steps: seq<Step>, location: XY, offset: XY): (r: seq<Waypoint>)
    ensures |r| == |steps|
    ensures forall i :: 0 <= i < |r| ==> r[i].length == steps[i].length && r[i].yRotation == -steps[i].angle
  {
    seq(|steps|, i requires 0 <= i < |steps| => PlaceStep(steps[i], location, offset))
  }

  /** How many steps `getPoints` takes along each of `arcs`. */
  function TotalSteps(arcs: seq<Arc>): nat
  {
    if arcs == [] then 0 else (if arcs[0].deviceTo > 0 then arcs[0].deviceTo else 0) + TotalSteps(arcs[1..])
  }

  /** The `forEach` over `arrPoints`: each arc's placed steps, in order. */
  function Assemble(m: Numerics, arcs: seq<Arc>, location: XY, offset: XY): (r: seq<Waypoint>)
    ensures |r| == TotalSteps(arcs)
  {
    if arcs == [] then [] else Place(ArcSteps(m, arcs[0]), location, offset) + Assemble(m, arcs[1..], location, offset)
  }

  /** `curveNode({ angle, location })`. */
  function CurveNode(m: Numerics, angle: int, location: XY): (r: seq<Waypoint>)
    ensures |r| == 19
  {
    var t := Remap(angle);
    var arcs := CurveArcs(t.angle);
    CurveSteps(t.angle);
    Assemble(m, arcs, location, t.offset)
  }

  /** Where each arc's steps begin in the assembled list. */
  function ArcStart(arcs: seq<Arc>, k: nat): nat
    requires k <= |arcs|
  {
    if k == 0 then 0 else ArcStart(arcs, k - 1) + (if arcs[k - 1].deviceTo > 0 then arcs[k - 1].deviceTo else 0)
  }

  /** Step `i` of arc `k` sits at `ArcStart(arcs, k) + i` of the assembled list. */
  lemma {:induction false} AssembleAt(m: Numerics, arcs: seq<Arc>, location: XY, offset: XY, k: nat, i: nat)
    requires k < |arcs| && i < |ArcSteps(m, arcs[k])|
    ensures ArcStart(arcs, k) + i < |Assemble(m, arcs, location, offset)|
    ensures Assemble(m, arcs, location, offset)[ArcStart(arcs, k) + i] == PlaceStep(ArcSteps(m, arcs[k])[i], location, offset)
  {
    if k == 0 {
    } else {
      AssembleAt(m, arcs[1..], location, offset, k - 1, i);
      StartShift(arcs, k);
    }
  }

  lemma {:induction false} StartShift(arcs: seq<Arc>, k: nat)
    requires 0 < k <= |arcs|
    ensures ArcStart(arcs, k) == (if arcs[0].deviceTo > 0 then arcs[0].deviceTo else 0) + ArcStart(arcs[1..], k - 1)
  {
    if k > 1 {
      StartShift(arcs, k - 1);
    }
  }

  /** The four lanes take 4 + 5 + 5 + 5 steps. */
  lemma CurveSteps(angle: int)
    ensures TotalSteps(CurveArcs(angle)) == 19
  {
    var arcs := CurveArcs(angle);
    assert arcs[3..][1..] == [];
    assert arcs[2..][1..] == arcs[3..];
    assert arcs[1..][1..] == arcs[2..];
    assert TotalSteps(arcs[3..]) == 5;
    assert TotalSteps(arcs[2..]) == 10;
    assert TotalSteps(arcs[1..]) == 15;
  }

  /** The four lanes start at 0, 4, 9 and 14. */
  lemma CurveStarts(angle: int)
    ensures var arcs := CurveArcs(angle);
      ArcStart(arcs, 1) == 4 && ArcStart(arcs, 2) == 9 && ArcStart(arcs, 3) == 14
  {
  }

  /**
   * Waypoint `i` of lane `k` is step `i` of that lane's arc, translated by the
   * location and the remapped offset, with its length and its heading reversed:
   * it starts at sample `i` of the arc and leads to sample `i + 1`.
   */
  lemma CurveWaypoint(m: Numerics, angle: int, location: XY, k: nat, i: nat)
    requires k < 4 && i < (if k == 0 then 4 else 5)
    ensures var t := Remap(angle);
      var arc := CurveArcs(t.angle)[k];
      var w := CurveNode(m, angle, location)[[0, 4, 9, 14][k] + i];
      var s := StepBetween(m, Sample(m, arc, i), Sample(m, arc, i + 1));
      && w.x == Sample(m, arc, i).x + location.x + t.offset.x
      && w.y == Sample(m, arc, i).y + location.y + t.offset.y
      && w.yRotation == -s.angle && w.length == s.length
  {
    var t := Remap(angle);
    var arcs := CurveArcs(t.angle);
    var arc := arcs[k];
    CurveStarts(t.angle);
    assert [0, 4, 9, 14][k] == ArcStart(arcs, k);
    assert i < |ArcSteps(m, arc)|;
    AssembleAt(m, arcs, location, t.offset, k, i);
    assert CurveNode(m, angle, location) == Assemble(m, arcs, location, t.offset);
    var s := ArcSteps(m, arc)[i];
    assert s == StepBetween(m, Sample(m, arc, i), Sample(m, arc, i + 1));
  }
}
