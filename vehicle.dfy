/**
 * The vehicle fleet of one instanced car model (GLTFModel/Vehicle.js): a list of
 * used instance slots, each following a queue of waypoints.  `addPath` takes a slot
 * for a new path, `updateUsedInstanceIndex` moves a slot on to its next waypoint,
 * and `move` advances every slot by one frame, dropping those whose path is spent.
 *
 * The distance, angle, speed and hypotenuse helpers are left uninterpreted
 * (`Kinematics`); the calls to the instanced mesh are recorded as `MeshUpdate`s.
 */
module Vehicles {
  import opened Wrappers
  import opened Points

  /**
   * The numeric helpers: `calculateDistanceAndAngle` (as `distance` and `angleDeg`),
   * `calculateSpeedComponents`, `calculateHypotenuse`, `THREE.MathUtils.degToRad`
   * and the two-decimal rounding `parseFloat(v.toFixed(2))`.
   */
  datatype Kinematics = Kinematics(distance: (XY, XY) -> real, angleDeg: (XY, XY) -> real,
                                   speedComponents: (XY, XY, real) -> XY,
                                   hypotenuse: (real, real) -> real,
                                   degToRad: real -> real, round2: real -> real)

  /** One used slot: its remaining waypoints, where it is, and how it moves. */
  datatype Entry = Entry(path: seq<XY>, position: XY, angleRadians: real,
                         distanceToNextNode: real, speed: real, speedOffset: XY)

  /** One `updateInstanceMeshPosition` call: a position in 3D, a heading and a slot. */
  datatype MeshUpdate = MeshUpdate(x: real, y: real, z: real, angleRadians: real, index: int)

  /** Where `move` parks the mesh instance of a slot it drops. */
  const OutOfScene: real := 10000000000.0

  /** JavaScript's `%`: the remainder of truncating division, with the dividend's sign. */
  function JsRem(x: real, d: real): (r: real)
    requires d > 0.0
  {
    var q := x / d;
    var t := if q >= 0.0 then q.Floor as real else -((-q).Floor as real);
    x - d * t
  }

  lemma JsRemRange(x: real, d: real)
    requires d > 0.0
    ensures x >= 0.0 ==> 0.0 <= JsRem(x, d) < d
    ensures x < 0.0 ==> -d < JsRem(x, d) <= 0.0
    ensures 0.0 <= x < d ==> JsRem(x, d) == x
  {
    var q := x / d;
    var t := if q >= 0.0 then q.Floor as real else -((-q).Floor as real);
    var r := JsRem(x, d);
    Factor(x, d, t);
    Sign(x, d);
    if x >= 0.0 {
      var f := q - t;
      assert 0.0 <= f < 1.0;
      assert r == d * f;
      Scale(d, f, r);
      if x < d {
        assert q < 1.0 && t == 0.0;
        assert d * q == x;
      }
    } else {
      var f := t - q;
      assert 0.0 <= f < 1.0;
      assert -r == d * f;
      Scale(d, f, -r);
    }
  }

  /** `x - d * t == d * (x / d - t)`. */
  lemma Factor(x: real, d: real, t: real)
    requires d > 0.0
    ensures x - d * t == d * (x / d - t)
  {
  }

  /** `x / d` has the sign of `x`, and is below 1 when `x` is below `d`. */
  lemma Sign(x: real, d: real)
    requires d > 0.0
    ensures x >= 0.0 <==> x / d >= 0.0
    ensures x < d ==> x / d < 1.0
  {
    var q := x / d;
    assert q * d == x;
    if q < 0.0 {
      assert q * d < 0.0 * d;
    }
    if x >= 0.0 && x < d {
      assert q * d < 1.0 * d;
    }
    if x < 0.0 {
      assert q * d < 0.0;
    }
  }

  /** A fraction `p` of a positive `d` by a factor in [0, 1) is in [0, d). */
  lemma Scale(d: real, f: real, p: real)
    requires d > 0.0 && 0.0 <= f < 1.0 && p == d * f
    ensures 0.0 <= p < d
  {
  }

  /**
   * The heading `updateUsedInstanceIndex` stores: `(-angleDeg + 90) % 360`, rounded,
   * in radians, rounded.
   */
  function Heading(kin: Kinematics, from: XY, to: XY): real
  {
    kin.round2(kin.degToRad(kin.round2(JsRem(-kin.angleDeg(from, to) + 90.0, 360.0))))
  }

  /** The slot `addPath` pushes before `updateUsedInstanceIndex` fills it in. */
  function Pending(path: seq<XY>, speed: real): Entry
  {
    Entry(path, XY(0.0, 0.0), 0.0, 0.0, speed, XY(0.0, 0.0))
  }

  /**
   * `updateUsedInstanceIndex` on one slot: the head waypoint becomes the position,
   * the path loses it, and the distance, heading and speed components are those of
   * the step to the new head; the speed is kept.
   */
  function Advanced(kin: Kinematics, e: Entry): (r: Entry)
    requires |e.path| >= 2
    ensures r.path == e.path[1..] && |r.path| == |e.path| - 1
    ensures r.position == e.path[0] && r.speed == e.speed
    ensures r.distanceToNextNode == kin.distance(e.path[0], r.path[0])
    ensures r.angleRadians == Heading(kin, e.path[0], r.path[0])
    ensures r.speedOffset == kin.speedComponents(e.path[0], r.path[0], e.speed)
  {
    var current, target := e.path[0], e.path[1];
    Entry(e.path[1..], current, Heading(kin, current, target), kin.distance(current, target),
          e.speed, kin.speedComponents(current, target, e.speed))
  }

  /** `getIsAvaliable`: a slot is free unless the count has reached `maxInstance` exactly. */
  predicate Available(maxInstance: Option<int>, used: seq<Entry>)
  {
    maxInstance != Some(|used|)
  }

  /** The slots after `addPath(path)`. */
  function AfterAdd(kin: Kinematics, maxInstance: Option<int>, maxSpeed: real, used: seq<Entry>, path: seq<XY>): (r: seq<Entry>)
    ensures |r| == |used| + (if Available(maxInstance, used) && |path| >= 2 then 1 else 0)
    ensures r[..|used|] == used
  {
    if Available(maxInstance, used) && |path| >= 2 then used + [Advanced(kin, Pending(path, maxSpeed))] else used
  }

  /** The slots after `addPath` of each of `paths` in turn. */
  function AfterAddAll(kin: Kinematics, maxInstance: Option<int>, maxSpeed: real, used: seq<Entry>, paths: seq<seq<XY>>): seq<Entry>
    decreases |paths|
  {
    if paths == [] then used
    else AfterAddAll(kin, maxInstance, maxSpeed, AfterAdd(kin, maxInstance, maxSpeed, used, paths[0]), paths[1..])
  }

  /** The mesh updates of `addPath(path)`: one, at the new slot's position, when the path is taken. */
  function AddUpdates(kin: Kinematics, maxInstance: Option<int>, maxSpeed: real, used: seq<Entry>, path: seq<XY>): seq<MeshUpdate>
  {
    if Available(maxInstance, used) && |path| >= 2 then
      var e := Advanced(kin, Pending(path, maxSpeed));
      [MeshUpdate(e.position.x, 0.0, e.position.y, e.angleRadians, |used|)]
    else []
  }

  function AddAllUpdates(kin: Kinematics, maxInstance: Option<int>, maxSpeed: real, used: seq<Entry>, paths: seq<seq<XY>>): seq<MeshUpdate>
    decreases |paths|
  {
    if paths == [] then []
    else (AddUpdates(kin, maxInstance, maxSpeed, used, paths[0])
          + AddAllUpdates(kin, maxInstance, maxSpeed, AfterAdd(kin, maxInstance, maxSpeed, used, paths[0]), paths[1..]))
  }

  /** A slot list and the mesh updates made while producing it. */
  datatype Moved = Moved(used: seq<Entry>, updates: seq<MeshUpdate>)

  /** A slot one frame on when it still has a waypoint ahead. */
  function Stepped(kin: Kinematics, e: Entry): Entry
    requires |e.path| >= 2
  {
    var remaining := e.distanceToNextNode - kin.hypotenuse(e.speedOffset.x, e.speedOffset.y);
    if remaining <= 0.0 then Advanced(kin, e)
    else e.(distanceToNextNode := remaining,
            position := XY(e.position.x + e.speedOffset.x, e.position.y + e.speedOffset.y))
  }

  /**
   * The `forEach` callback of `move` at index `k` of the current list: a slot with
   * at most one waypoint is spliced out (parking the last mesh instance); otherwise it
   * is stepped, and moved on the mesh unless it reached its waypoint.
   */
  function Visit(kin: Kinematics, used: seq<Entry>, k: nat): (r: Moved)
    requires k < |used|
    ensures |used[k].path| <= 1 ==> r.used == used[..k] + used[k + 1..]
    ensures |used[k].path| >= 2 ==> r.used == used[k := Stepped(kin, used[k])]
  {
    var e := used[k];
    if |e.path| <= 1 then
      Moved(used[..k] + used[k + 1..], [MeshUpdate(0.0, OutOfScene, 0.0, e.angleRadians, |used| - 1)])
    else
      var remaining := e.distanceToNextNode - kin.hypotenuse(e.speedOffset.x, e.speedOffset.y);
      if remaining <= 0.0 then Moved(used[k := Advanced(kin, e)], [])
      else
        var x, y := e.position.x + e.speedOffset.x, e.position.y + e.speedOffset.y;
        Moved(used[k := e.(distanceToNextNode := remaining, position := XY(x, y))],
              [MeshUpdate(x, 0.0, y, e.angleRadians, k)])
  }

  /**
   * `forEach` from index `k` below the length `n` it started with: indices the list
   * has shrunk below are skipped.
   */
  function MoveFrom(kin: Kinematics, used: seq<Entry>, k: nat, n: nat): Moved
    decreases n - k
  {
    if k >= n then Moved(used, [])
    else if k >= |used| then MoveFrom(kin, used, k + 1, n)
    else
      var v := Visit(kin, used, k);
      var rest := MoveFrom(kin, v.used, k + 1, n);
      Moved(rest.used, v.updates + rest.updates)
  }

  /** The effect of `move` on the slots, when its guard lets it run. */
  function MoveAll(kin: Kinematics, used: seq<Entry>): Moved
  {
    MoveFrom(kin, used, 0, |used|)
  }

  class Vehicle {
    const kin: Kinematics
    /** `undefined` when the caller gives no `maxInstance`. */
    const maxInstance: Option<int>
    const maxSpeed: real
    var speed: real
    var position: XY
    var usedInstanceIndex: seq<Entry>
    /** The `updateInstanceMeshPosition` calls made so far. */
    var meshUpdates: seq<MeshUpdate>

    /** With a number of slots, the count never passes it. */
    predicate Valid()
      reads this
    {
      maxInstance.Some? && maxInstance.value >= 0 ==> |usedInstanceIndex| <= maxInstance.value
    }

    /** The constructor: no slot used, the speed at its maximum, the position at the origin. */
    constructor (kin: Kinematics, speed: real, maxInstance: Option<int>)
      ensures this.kin == kin && this.maxInstance == maxInstance
      ensures maxSpeed == speed && this.speed == speed && position == XY(0.0, 0.0)
      ensures usedInstanceIndex == [] && meshUpdates == []
      ensures Valid()
    {
      this.kin := kin;
      this.maxInstance := maxInstance;
      usedInstanceIndex := [];
      maxSpeed := speed;
      this.speed := speed;
      position := XY(0.0, 0.0);
      meshUpdates := [];
    }

    /** `getIsAvaliable`. */
    method GetIsAvaliable() returns (r: bool)
      ensures r <==> Available(maxInstance, usedInstanceIndex)
    {
      r := maxInstance != Some(|usedInstanceIndex|);
    }

    /** `updateUsedInstanceIndex({ index })`. */
    method UpdateUsedInstanceIndex(index: nat)
      requires index < |usedInstanceIndex| && |usedInstanceIndex[index].path| >= 2
      modifies this`usedInstanceIndex
      ensures usedInstanceIndex == old(usedInstanceIndex)[index := Advanced(kin, old(usedInstanceIndex[index]))]
    {
      var e := usedInstanceIndex[index];
      var current, target := e.path[0], e.path[1];
      var length := kin.distance(current, target);
      var rotateAngle := kin.round2(JsRem(-kin.angleDeg(current, target) + 90.0, 360.0));
      var degToRad := kin.round2(kin.degToRad(rotateAngle));
      var path := e.path[1..];
      usedInstanceIndex := usedInstanceIndex[index := Entry(path, current, degToRad, length, e.speed,
                                                            kin.speedComponents(current, target, e.speed))];
    }

    /** `addPath(path)`. */
    method AddPath(path: seq<XY>)
      modifies this`usedInstanceIndex, this`meshUpdates
      ensures usedInstanceIndex == AfterAdd(kin, maxInstance, maxSpeed, old(usedInstanceIndex), path)
      ensures meshUpdates == old(meshUpdates) + AddUpdates(kin, maxInstance, maxSpeed, old(usedInstanceIndex), path)
      ensures old(Valid()) ==> Valid()
    {
      AddKeepsBound(kin, maxInstance, maxSpeed, usedInstanceIndex, path);
      var avaliable := GetIsAvaliable();
      if !avaliable || |path| < 2 {
        return;
      }
      var index := |usedInstanceIndex|;
      usedInstanceIndex := usedInstanceIndex + [Pending(path, maxSpeed)];
      UpdateUsedInstanceIndex(index);
      var e := usedInstanceIndex[index];
      meshUpdates := meshUpdates + [MeshUpdate(e.position.x, 0.0, e.position.y, e.angleRadians, index)];
    }

    /** `init({ paths })`, without creating the mesh. */
    method Init(paths: seq<seq<XY>>)
      modifies this`usedInstanceIndex, this`meshUpdates
      ensures usedInstanceIndex == AfterAddAll(kin, maxInstance, maxSpeed, old(usedInstanceIndex), paths)
      ensures meshUpdates == old(meshUpdates) + AddAllUpdates(kin, maxInstance, maxSpeed, old(usedInstanceIndex), paths)
    {
      var i := 0;
      while i < |paths|
        invariant i <= |paths|
        invariant AfterAddAll(kin, maxInstance, maxSpeed, usedInstanceIndex, paths[i..])
               == AfterAddAll(kin, maxInstance, maxSpeed, old(usedInstanceIndex), paths)
        invariant meshUpdates + AddAllUpdates(kin, maxInstance, maxSpeed, usedInstanceIndex, paths[i..])
               == old(meshUpdates) + AddAllUpdates(kin, maxInstance, maxSpeed, old(usedInstanceIndex), paths)
      {
        ghost var log, before := meshUpdates, usedInstanceIndex;
        AddAllUnfold(kin, maxInstance, maxSpeed, usedInstanceIndex, paths[i..]);
        assert paths[i..][1..] == paths[i + 1..];
        AddPath(paths[i]);
        Assoc(log, AddUpdates(kin, maxInstance, maxSpeed, before, paths[i]),
              AddAllUpdates(kin, maxInstance, maxSpeed, usedInstanceIndex, paths[i + 1..]));
        i := i + 1;
      }
      assert paths[i..] == [];
    }

    /**
     * `move()`.  Its guard compares the never-assigned `this.avaliable` with
     * `maxInstance`, so it returns at once exactly when `maxInstance` is undefined.
     */
    method Move()
      modifies this`usedInstanceIndex, this`meshUpdates
      ensures maxInstance.None? ==> usedInstanceIndex == old(usedInstanceIndex) && meshUpdates == old(meshUpdates)
      ensures maxInstance.Some? ==> usedInstanceIndex == MoveAll(kin, old(usedInstanceIndex)).used
      ensures maxInstance.Some? ==> meshUpdates == old(meshUpdates) + MoveAll(kin, old(usedInstanceIndex)).updates
      ensures old(Valid()) ==> Valid()
    {
      MoveNeverGrows(kin, usedInstanceIndex, 0, |usedInstanceIndex|);
      if maxInstance.None? {
        return;
      }
      var n := |usedInstanceIndex|;
      var k := 0;
      while k < n
        invariant k <= n
        invariant MoveFrom(kin, usedInstanceIndex, k, n).used == MoveAll(kin, old(usedInstanceIndex)).used
        invariant meshUpdates + MoveFrom(kin, usedInstanceIndex, k, n).updates
               == old(meshUpdates) + MoveAll(kin, old(usedInstanceIndex)).updates
      {
        MoveFromUnfold(kin, usedInstanceIndex, k, n);
        if k < |usedInstanceIndex| {
          ghost var log, before := meshUpdates, usedInstanceIndex;
          VisitAt(k);
          ghost var rest := MoveFrom(kin, usedInstanceIndex, k + 1, n).updates;
          Assoc(log, Visit(kin, before, k).updates, rest);
        }
        k := k + 1;
      }
    }

    /** The `forEach` callback of `move` at index `k`. */
    method VisitAt(k: nat)
      requires k < |usedInstanceIndex|
      modifies this`usedInstanceIndex, this`meshUpdates
      ensures usedInstanceIndex == Visit(kin, old(usedInstanceIndex), k).used
      ensures meshUpdates == old(meshUpdates) + Visit(kin, old(usedInstanceIndex), k).updates
    {
      var e := usedInstanceIndex[k];
      if |e.path| <= 1 {
        meshUpdates := meshUpdates + [MeshUpdate(0.0, OutOfScene, 0.0, e.angleRadians, |usedInstanceIndex| - 1)];
        usedInstanceIndex := usedInstanceIndex[..k] + usedInstanceIndex[k + 1..];
      } else {
        var distanceDiff := kin.hypotenuse(e.speedOffset.x, e.speedOffset.y);
        var newDistanceToNextNode := e.distanceToNextNode - distanceDiff;
        if newDistanceToNextNode <= 0.0 {
          UpdateUsedInstanceIndex(k);
        } else {
          var newX := e.position.x + e.speedOffset.x;
          var newY := e.position.y + e.speedOffset.y;
          usedInstanceIndex := usedInstanceIndex[k := e.(distanceToNextNode := newDistanceToNextNode,
                                                         position := XY(newX, newY))];
          meshUpdates := meshUpdates + [MeshUpdate(newX, 0.0, newY, e.angleRadians, k)];
        }
      }
    }
  }

  /**
   * `addPath` takes a slot exactly when one is free and the path has a step: the new
   * slot sits at the path's first waypoint facing its second, with the path's rest
   * and the maximum speed.
   */
  lemma AddPathTakesSlot(kin: Kinematics, maxInstance: Option<int>, maxSpeed: real, used: seq<Entry>, path: seq<XY>)
    ensures AfterAdd(kin, maxInstance, maxSpeed, used, path) != used
        <==> Available(maxInstance, used) && |path| >= 2
    ensures Available(maxInstance, used) && |path| >= 2 ==>
      var e := AfterAdd(kin, maxInstance, maxSpeed, used, path)[|used|];
      e.path == path[1..] && e.position == path[0] && e.speed == maxSpeed
      && e.distanceToNextNode == kin.distance(path[0], path[1])
  {
  }

  /** The first of several `addPath` calls, split off. */
  lemma AddAllUnfold(kin: Kinematics, maxInstance: Option<int>, maxSpeed: real, used: seq<Entry>, paths: seq<seq<XY>>)
    requires paths != []
    ensures var next := AfterAdd(kin, maxInstance, maxSpeed, used, paths[0]);
      && AfterAddAll(kin, maxInstance, maxSpeed, used, paths) == AfterAddAll(kin, maxInstance, maxSpeed, next, paths[1..])
      && AddAllUpdates(kin, maxInstance, maxSpeed, used, paths)
         == AddUpdates(kin, maxInstance, maxSpeed, used, paths[0]) + AddAllUpdates(kin, maxInstance, maxSpeed, next, paths[1..])
  {
  }

  /** One count-bounded `addPath` stays within the bound. */
  lemma AddKeepsBound(kin: Kinematics, maxInstance: Option<int>, maxSpeed: real, used: seq<Entry>, path: seq<XY>)
    ensures var r := AfterAdd(kin, maxInstance, maxSpeed, used, path);
      maxInstance.Some? && maxInstance.value >= 0 && |used| <= maxInstance.value ==> |r| <= maxInstance.value
  {
  }

  /**
   * Starting from no slot, any sequence of `addPath` calls leaves at most
   * `maxInstance` slots, because each adds one only while the count differs from it.
   */
  lemma {:induction false} AddAllKeepsBound(kin: Kinematics, maxInstance: Option<int>, maxSpeed: real, used: seq<Entry>, paths: seq<seq<XY>>)
    requires maxInstance.Some? && maxInstance.value >= 0 && |used| <= maxInstance.value
    ensures |AfterAddAll(kin, maxInstance, maxSpeed, used, paths)| <= maxInstance.value
    decreases |paths|
  {
    if paths != [] {
      AddKeepsBound(kin, maxInstance, maxSpeed, used, paths[0]);
      AddAllKeepsBound(kin, maxInstance, maxSpeed, AfterAdd(kin, maxInstance, maxSpeed, used, paths[0]), paths[1..]);
    }
  }

  /** A negative `maxInstance` is never reached, so it bounds nothing: every path is taken. */
  lemma NegativeMaxNeverFills(kin: Kinematics, maxSpeed: real, used: seq<Entry>, path: seq<XY>, max: int)
    requires max < 0 && |path| >= 2
    ensures |AfterAdd(kin, Some(max), maxSpeed, used, path)| == |used| + 1
  {
  }

  lemma Assoc<T>(a: seq<T>, b: seq<T>, c: seq<T>)
    ensures (a + b) + c == a + (b + c)
  {
  }

  /** One index of the `forEach`, split off. */
  lemma MoveFromUnfold(kin: Kinematics, used: seq<Entry>, k: nat, n: nat)
    requires k < n
    ensures k >= |used| ==> MoveFrom(kin, used, k, n) == MoveFrom(kin, used, k + 1, n)
    ensures k < |used| ==>
      var v := Visit(kin, used, k);
      && MoveFrom(kin, used, k, n).used == MoveFrom(kin, v.used, k + 1, n).used
      && MoveFrom(kin, used, k, n).updates == v.updates + MoveFrom(kin, v.used, k + 1, n).updates
  {
  }

  /** `move` never adds a slot. */
  lemma {:induction false} MoveNeverGrows(kin: Kinematics, used: seq<Entry>, k: nat, n: nat)
    ensures |MoveFrom(kin, used, k, n).used| <= |used|
    decreases n - k
  {
    if k >= n {
    } else if k >= |used| {
      MoveNeverGrows(kin, used, k + 1, n);
    } else {
      var v := Visit(kin, used, k);
      MoveNeverGrows(kin, v.used, k + 1, n);
    }
  }

  /**
   * When every slot visited has a waypoint ahead nothing is spliced, so `move` steps
   * each slot in place.
   */
  lemma {:induction false} MoveStepsEach(kin: Kinematics, used: seq<Entry>, k: nat)
    requires k <= |used|
    requires forall i :: k <= i < |used| ==> |used[i].path| >= 2
    ensures var r := MoveFrom(kin, used, k, |used|).used;
      && |r| == |used|
      && (forall i :: 0 <= i < k ==> r[i] == used[i])
      && (forall i :: k <= i < |used| ==> r[i] == Stepped(kin, used[i]))
    decreases |used| - k
  {
    if k < |used| {
      var next := used[k := Stepped(kin, used[k])];
      MoveFromUnfold(kin, used, k, |used|);
      assert Visit(kin, used, k).used == next;
      MoveStepsEach(kin, next, k + 1);
      var r := MoveFrom(kin, next, k + 1, |next|).used;
      assert MoveFrom(kin, used, k, |used|).used == r;
      forall i | 0 <= i < k
        ensures r[i] == used[i]
      {
        assert next[i] == used[i];
      }
      forall i | k < i < |used|
        ensures r[i] == Stepped(kin, used[i])
      {
        assert next[i] == used[i];
      }
    }
  }

  /** So a frame with no spent path moves every slot one step. */
  lemma MoveAllSteps(kin: Kinematics, used: seq<Entry>)
    requires forall i :: 0 <= i < |used| ==> |used[i].path| >= 2
    ensures |MoveAll(kin, used).used| == |used|
    ensures forall i :: 0 <= i < |used| ==> MoveAll(kin, used).used[i] == Stepped(kin, used[i])
  {
    MoveStepsEach(kin, used, 0);
  }

  /**
   * A step either reaches the waypoint, taking on its position, or covers part of
   * the distance and moves by the speed components.
   */
  lemma SteppedEffect(kin: Kinematics, e: Entry)
    requires |e.path| >= 2
    ensures var d := e.distanceToNextNode - kin.hypotenuse(e.speedOffset.x, e.speedOffset.y);
      && (d <= 0.0 ==> Stepped(kin, e).position == e.path[0] && Stepped(kin, e).path == e.path[1..])
      && (d > 0.0 ==> Stepped(kin, e).distanceToNextNode == d && Stepped(kin, e).path == e.path
                      && Stepped(kin, e).position == XY(e.position.x + e.speedOffset.x, e.position.y + e.speedOffset.y))
  {
  }

  /**
   * Splicing inside `forEach` skips a slot: with two spent slots, `move` drops the
   * first and never visits the second, which moves into index 0 after the visit of
   * index 0 and is gone from index 1.
   */
  lemma SpentNeighbourSkipped(kin: Kinematics, e1: Entry, e2: Entry)
    requires |e1.path| <= 1 && |e2.path| <= 1
    ensures MoveAll(kin, [e1, e2]).used == [e2]
    ensures MoveAll(kin, [e1, e2]).updates == [MeshUpdate(0.0, OutOfScene, 0.0, e1.angleRadians, 1)]
  {
    var v := Visit(kin, [e1, e2], 0);
    assert v.used == [e2];
    assert MoveFrom(kin, [e2], 1, 2) == MoveFrom(kin, [e2], 2, 2);
  }
}
