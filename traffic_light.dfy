/**
 * The traffic-light phase machine (GLTFModel/TrafficLight.js).
 *
 * A light is a phase (`red`, `yellow` or `green`) and a countdown.  Each `update`
 * compares the countdown with 0 and then decrements it (`time-- <= 0`); when the
 * comparison succeeds the light moves to the successor phase with that phase's
 * table duration.  Lighting the sub-meshes (`updateLight`) is rendering and is
 * not modelled.
 */
module TrafficLights {

  datatype LightType = Red | Yellow | Green

  datatype Light = Light(time: int, kind: LightType)

  /** One row of the static `lightVal` table: the phase duration and the lit sub-mesh indices. */
  datatype LightVal = LightVal(time: nat, index: seq<nat>)

  function LightValOf(kind: LightType): LightVal
  {
    match kind
    case Red => LightVal(500, [1, 4])
    case Yellow => LightVal(200, [2, 5])
    case Green => LightVal(500, [3, 6])
  }

  /** `nextLightMap`: green to yellow, yellow to red, red to green. */
  function NextLight(kind: LightType): LightType
  {
    match kind
    case Green => Yellow
    case Yellow => Red
    case Red => Green
  }

  /** The effect of one `update` call on the light. */
  function Step(light: Light): Light
  {
    if light.time <= 0 then
      var next := NextLight(light.kind);
      Light(LightValOf(next).time, next)
    else
      Light(light.time - 1, light.kind)
  }

  /** `n` consecutive `update` calls. */
  function Iterate(light: Light, n: nat): Light
  {
    if n == 0 then light else Step(Iterate(light, n - 1))
  }

  class TrafficLight {
    const maxInstance: nat
    var avalableIndex: seq<nat>
    var light: Light

    /** The constructor: a red light with countdown 0 and every instance index free. */
    constructor (maxInstance: nat)
      ensures this.maxInstance == maxInstance
      ensures light == Light(0, Red)
      ensures |avalableIndex| == maxInstance
      ensures forall i :: 0 <= i < maxInstance ==> avalableIndex[i] == i
    {
      this.maxInstance := maxInstance;
      avalableIndex := seq(maxInstance, i => i);
      light := Light(0, Red);
    }

    /** The light state that `init` installs (its mesh set-up is rendering). */
    method Init()
      modifies this`light
      ensures light == Light(1, Yellow)
    {
      light := Light(1, Yellow);
    }

    /** `update`: test the countdown, then decrement it or switch phase. */
    method Update()
      modifies this`light
      ensures light == Step(old(light))
      ensures old(light).time > 0 ==> light == Light(old(light).time - 1, old(light).kind)
      ensures old(light).time <= 0 ==>
                light.kind == NextLight(old(light).kind) && light.time == LightValOf(light.kind).time
    {
      var time := light.time;
      light := light.(time := time - 1);
      if time <= 0 {
        var currentLightType := light.kind;
        var nextLightType := NextLight(currentLightType);
        light := Light(LightValOf(nextLightType).time, nextLightType);
      }
    }
  }

  /** While the countdown is positive an update only decrements it. */
  lemma UpdateCountsDown(light: Light)
    requires light.time > 0
    ensures Step(light) == Light(light.time - 1, light.kind)
  {
  }

  /** At or below zero an update enters the successor phase with its table duration. */
  lemma UpdateSwitchesPhase(light: Light)
    requires light.time <= 0
    ensures Step(light).kind == NextLight(light.kind) && Step(light).kind != light.kind
    ensures Step(light).time == LightValOf(Step(light).kind).time
  {
  }

  /** The successor map is a 3-cycle through all three phases. */
  lemma NextLightIsThreeCycle(kind: LightType)
    ensures NextLight(kind) != kind && NextLight(NextLight(kind)) != kind
    ensures NextLight(NextLight(NextLight(kind))) == kind
  {
  }

  /** The phase durations of the table: red 500, yellow 200, green 500. */
  lemma PhaseDurations()
    ensures LightValOf(Red).time == 500 && LightValOf(Yellow).time == 200 && LightValOf(Green).time == 500
  {
  }

  lemma {:induction false} IterateAdd(light: Light, m: nat, n: nat)
    ensures Iterate(light, m + n) == Iterate(Iterate(light, m), n)
  {
    if n > 0 {
      IterateAdd(light, m, n - 1);
    }
  }

  /** During the first `k <= T` updates of a phase entered with time `T`, only the countdown moves. */
  lemma {:induction false} CountdownPhase(time: nat, kind: LightType, k: nat)
    requires k <= time
    ensures Iterate(Light(time, kind), k) == Light(time - k, kind)
  {
    if k > 0 {
      CountdownPhase(time, kind, k - 1);
    }
  }

  /** A phase entered with time `T` lasts exactly `T + 1` updates, then the successor phase starts. */
  lemma {:induction false} PhaseLastsTimePlusOne(time: nat, kind: LightType)
    ensures forall k :: 0 <= k <= time ==> Iterate(Light(time, kind), k).kind == kind
    ensures Iterate(Light(time, kind), time + 1) ==
              Light(LightValOf(NextLight(kind)).time, NextLight(kind))
  {
    forall k | 0 <= k <= time
      ensures Iterate(Light(time, kind), k).kind == kind
    {
      CountdownPhase(time, kind, k);
    }
    CountdownPhase(time, kind, time);
  }

  /** The number of updates one full red-green-yellow cycle takes: 501 + 501 + 201. */
  const CyclePeriod: nat := 1203

  /** Started at the beginning of any phase, the light returns to it after `CyclePeriod` updates. */
  lemma {:induction false} LightCycles(kind: LightType)
    ensures Iterate(Light(LightValOf(kind).time, kind), CyclePeriod) == Light(LightValOf(kind).time, kind)
  {
    var k1 := NextLight(kind);
    var k2 := NextLight(k1);
    var t0, t1, t2 := LightValOf(kind).time, LightValOf(k1).time, LightValOf(k2).time;
    assert t0 + 1 + t1 + 1 + t2 + 1 == CyclePeriod;
    var l0 := Light(t0, kind);
    PhaseLastsTimePlusOne(t0, kind);
    PhaseLastsTimePlusOne(t1, k1);
    PhaseLastsTimePlusOne(t2, k2);
    IterateAdd(l0, t0 + 1, t1 + 1);
    IterateAdd(l0, t0 + 1 + t1 + 1, t2 + 1);
    NextLightIsThreeCycle(kind);
  }

  /** After `init` (yellow, time 1) two updates bring the light to red with 500 ticks. */
  lemma InitThenTwoUpdates()
    ensures Iterate(Light(1, Yellow), 2) == Light(500, Red)
  {
  }
}
