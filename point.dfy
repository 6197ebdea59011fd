/**
 * Sampling an arc into lane waypoints (helper/point.js).
 *
 * `getPoints` samples `deviceTo + 1` points on a quarter circle and hands them to
 * `calculateDistancesAndAngles`, which turns each consecutive pair into one step.
 * The floating-point operations are left uninterpreted (`Numerics`); the loops,
 * the angle schedule and the shape of the lists are modelled exactly.
 */
module Points {

  /** A point or offset in the plane. */
  datatype XY = XY(x: real, y: real)

  /**
   * The floating-point operations the sampling uses: `Math.sqrt`, `Math.cos`,
   * `Math.sin` and `Math.atan2`, the multiplications by π/180 (`degToRad`) and by
   * 180/π (`radToDeg`), and `parseFloat(v.toFixed(2))` (`round2`).
   */
  datatype Numerics = Numerics(sqrt: real -> real, cos: real -> real, sin: real -> real,
                               atan2: (real, real) -> real, degToRad: real -> real,
                               radToDeg: real -> real, round2: real -> real)

  /** One entry of `calculateDistancesAndAngles`: a point, with the length and angle of the step to the next one. */
  datatype Step = Step(x: real, y: real, length: real, angle: real)

  /** The waypoint the lane generators emit: a position, a heading in degrees and a length. */
  datatype Waypoint = Waypoint(x: real, y: real, yRotation: real, length: real)

  /** `Math.sqrt((x2 - x1) ** 2 + (y2 - y1) ** 2)`. */
  function Distance(m: Numerics, p: XY, q: XY): real
  {
    m.sqrt((q.x - p.x) * (q.x - p.x) + (q.y - p.y) * (q.y - p.y))
  }

  /** The entry `calculateDistancesAndAngles` builds from points `p` and `q`. */
  function StepBetween(m: Numerics, p: XY, q: XY): Step
  {
    Step(p.x, p.y, m.round2(Distance(m, p, q)), m.round2(m.radToDeg(m.atan2(q.y - p.y, q.x - p.x))))
  }

  /**
   * `calculateDistancesAndAngles(points)`: one entry per consecutive pair, so one
   * fewer than there are points and none for zero or one point; entry `i` sits at
   * point `i` and measures the step to point `i + 1`.
   */
  function Steps(m: Numerics, points: seq<XY>): (r: seq<Step>)
    ensures |r| == if |points| <= 1 then 0 else |points| - 1
    ensures forall i :: 0 <= i < |r| ==> r[i] == StepBetween(m, points[i], points[i + 1])
    ensures forall i :: 0 <= i < |r| ==> r[i].x == points[i].x && r[i].y == points[i].y
  {
    if |points| <= 1 then []
    else seq(|points| - 1, i requires 0 <= i < |points| - 1 => StepBetween(m, points[i], points[i + 1]))
  }

  /** `calculateDistancesAndAngles(points)`. */
  method CalculateDistancesAndAngles(m: Numerics, points: seq<XY>) returns (lengthsAndAngles: seq<Step>)
    ensures lengthsAndAngles == Steps(m, points)
  {
    lengthsAndAngles := [];
    var i := 0;
    while i < |points| - 1
      invariant 0 <= i && (|points| >= 1 ==> i <= |points| - 1) && (|points| == 0 ==> i == 0)
      invariant |lengthsAndAngles| == i
      invariant forall j :: 0 <= j < i ==> lengthsAndAngles[j] == StepBetween(m, points[j], points[j + 1])
    {
      var p, q := points[i], points[i + 1];
      var length := Distance(m, p, q);
      var angleRadians := m.atan2(q.y - p.y, q.x - p.x);
      var angleDegrees := m.radToDeg(angleRadians);
      lengthsAndAngles := lengthsAndAngles + [Step(p.x, p.y, m.round2(length), m.round2(angleDegrees))];
      i := i + 1;
    }
  }

  /** The arguments of `getPoints`. */
  datatype Arc = Arc(a: XY, b: XY, angle: real, offset: XY, deviceTo: int, direction: real)

  /** `getPoints`'s defaults for the arguments a caller leaves out. */
  function DefaultArc(a: XY, b: XY): Arc
  {
    Arc(a, b, 90.0, XY(0.5, -0.5), 5, 1.0)
  }

  /** The first sample's angle offset: 0 for direction 1, 90 for any other direction. */
  function StartAngle(direction: real): real
  {
    if direction == 1.0 then 0.0 else 90.0
  }

  /**
   * `(90 / deviceTo) * direction`.  With `deviceTo` 0 the loop stops after the one
   * sample it takes, so the (infinite) increment is never used; it is written 0 here.
   */
  function AngleStep(deviceTo: int, direction: real): real
  {
    if deviceTo == 0 then 0.0 else (90.0 / deviceTo as real) * direction
  }

  /** The angle offset of sample `i`. */
  function SampleAngle(arc: Arc, i: nat): real
  {
    StartAngle(arc.direction) + i as real * AngleStep(arc.deviceTo, arc.direction)
  }

  /** The point at `radians` on the circle of `radius` about the origin, rounded, then shifted by `offset`. */
  function OnCircle(m: Numerics, radius: real, radians: real, offset: XY): XY
  {
    XY(m.round2(radius * m.cos(radians)) + offset.x, m.round2(radius * m.sin(radians)) + offset.y)
  }

  /** Sample `i`: on the circle of radius `|b - a|` at the sample's angle plus `angle`. */
  function Sample(m: Numerics, arc: Arc, i: nat): XY
  {
    OnCircle(m, Distance(m, arc.a, arc.b), m.degToRad(SampleAngle(arc, i) + arc.angle), arc.offset)
  }

  /** The loop `for (let i = 0; i < deviceTo + 1; i++)` takes `deviceTo + 1` samples, or none. */
  function SampleCount(arc: Arc): nat
  {
    if arc.deviceTo + 1 > 0 then arc.deviceTo + 1 else 0
  }

  function Samples(m: Numerics, arc: Arc): seq<XY>
  {
    seq(SampleCount(arc), (i: int) requires 0 <= i => Sample(m, arc, i))
  }

  /**
   * `getPoints(arc)`: `deviceTo` steps along the arc (none when `deviceTo` is not
   * positive), step `i` leading from sample `i` to sample `i + 1`.
   */
  function ArcSteps(m: Numerics, arc: Arc): (r: seq<Step>)
    ensures |r| == if arc.deviceTo > 0 then arc.deviceTo else 0
    ensures forall i :: 0 <= i < |r| ==> r[i] == StepBetween(m, Sample(m, arc, i), Sample(m, arc, i + 1))
  {
    Steps(m, Samples(m, arc))
  }

  /** `getPoints(arc)`. */
  method GetPoints(m: Numerics, arc: Arc) returns (r: seq<Step>)
    ensures r == ArcSteps(m, arc)
  {
    var radius := Distance(m, arc.a, arc.b);
    var currentAngle := if arc.direction == 1.0 then 0.0 else 90.0;
    var result: seq<XY> := [];
    var i := 0;
    while i < arc.deviceTo + 1
      invariant 0 <= i && (i <= arc.deviceTo + 1 || i == 0)
      invariant |result| == i
      invariant forall j :: 0 <= j < i ==> result[j] == Sample(m, arc, j)
      invariant currentAngle == SampleAngle(arc, i)
    {
      var radians := m.degToRad(currentAngle + arc.angle);
      var point := OnCircle(m, radius, radians, arc.offset);
      result := result + [point];
      NextAngle(arc, i);
      currentAngle := currentAngle + AngleStep(arc.deviceTo, arc.direction);
      i := i + 1;
    }
    assert result == Samples(m, arc);
    r := CalculateDistancesAndAngles(m, result);
  }

  /** Adding the step once more gives the next sample's angle. */
  lemma NextAngle(arc: Arc, i: nat)
    ensures SampleAngle(arc, i) + AngleStep(arc.deviceTo, arc.direction) == SampleAngle(arc, i + 1)
  {
    var s := AngleStep(arc.deviceTo, arc.direction);
    assert (i + 1) as real * s == i as real * s + s;
  }

  /**
   * With `deviceTo` positive the samples sweep a quarter turn: from offset 0 up to
   * 90 for direction 1, and from 90 down to 0 for direction -1.
   */
  lemma SweepEnds(arc: Arc)
    requires arc.deviceTo > 0 && (arc.direction == 1.0 || arc.direction == -1.0)
    ensures SampleAngle(arc, 0) == if arc.direction == 1.0 then 0.0 else 90.0
    ensures SampleAngle(arc, arc.deviceTo) == if arc.direction == 1.0 then 90.0 else 0.0
  {
    var d := arc.deviceTo as real;
    assert (90.0 / d) * d == 90.0;
  }

  /**
   * The two directions visit the same offsets in opposite orders: sample `i` of
   * direction 1 is at the offset of sample `deviceTo - i` of direction -1.
   */
  lemma {:induction false} SweepReversed(arc: Arc, i: nat)
    requires arc.deviceTo > 0 && arc.direction == 1.0 && i <= arc.deviceTo
    ensures SampleAngle(arc, i) == SampleAngle(arc.(direction := -1.0), arc.deviceTo - i)
  {
    var d := arc.deviceTo as real;
    var q := 90.0 / d;
    assert q * d == 90.0;
    assert (arc.deviceTo - i) as real * (q * -1.0) == i as real * q - 90.0 by {
      assert (arc.deviceTo - i) as real == d - i as real;
    }
  }

  /** So the two directions take the same points, in opposite orders. */
  lemma SamplesReversed(m: Numerics, arc: Arc, i: nat)
    requires arc.deviceTo > 0 && arc.direction == 1.0 && i <= arc.deviceTo
    ensures Sample(m, arc, i) == Sample(m, arc.(direction := -1.0), arc.deviceTo - i)
  {
    var arc' := arc.(direction := -1.0);
    SweepReversed(arc, i);
    assert Distance(m, arc'.a, arc'.b) == Distance(m, arc.a, arc.b);
    assert SampleAngle(arc', arc.deviceTo - i) + arc'.angle == SampleAngle(arc, i) + arc.angle;
  }
}
