/**
 * Building growth (Building.js): a building below its maximum height counts down
 * `growTimeInterval`; when the counter reaches 0 it is reset to 500 and the height
 * becomes `Math.floor(height + 1)`.  Replacing the box geometry is rendering and is
 * not modelled.
 */
module Buildings {

  /** The module constant `growTimeInterval`. */
  const GrowTimeInterval: int := 500

  /** The constructor's default height. */
  const DefaultHeight: real := 0.1

  /** The two counters `grow` changes. */
  datatype Growth = Growth(height: real, interval: int)

  /** The effect of one `grow` call. */
  function GrowStep(g: Growth, maxHeight: real): Growth
  {
    if g.height == maxHeight then g
    else if g.interval - 1 <= 0 then Growth((g.height + 1.0).Floor as real, GrowTimeInterval)
    else Growth(g.height, g.interval - 1)
  }

  /** `n` consecutive `grow` calls. */
  function GrowIterate(g: Growth, maxHeight: real, n: nat): Growth
  {
    if n == 0 then g else GrowStep(GrowIterate(g, maxHeight, n - 1), maxHeight)
  }

  class Building {
    const maxHeight: real
    var height: real
    var growTimeInterval: int

    constructor (maxHeight: real, height: real)
      ensures this.maxHeight == maxHeight && this.height == height
      ensures growTimeInterval == GrowTimeInterval
    {
      this.maxHeight := maxHeight;
      this.height := height;
      growTimeInterval := GrowTimeInterval;
    }

    /** `grow` (its counter logic). */
    method Grow()
      modifies this`height, this`growTimeInterval
      ensures Growth(height, growTimeInterval) == GrowStep(Growth(old(height), old(growTimeInterval)), maxHeight)
      ensures old(height) == maxHeight ==> height == old(height) && growTimeInterval == old(growTimeInterval)
    {
      if height == maxHeight {
        return;
      }
      growTimeInterval := growTimeInterval - 1;
      if growTimeInterval <= 0 {
        growTimeInterval := GrowTimeInterval;
        height := height + 1.0;
        height := height.Floor as real;
      }
    }
  }

  /** At the maximum height nothing changes. */
  lemma CappedGrowthIsIdle(g: Growth, maxHeight: real)
    requires g.height == maxHeight
    ensures GrowStep(g, maxHeight) == g
  {
  }

  /** Below the cap every call decrements the counter or, at 1, resets it with a height bump. */
  lemma GrowDecrementsOrBumps(g: Growth, maxHeight: real)
    requires g.height != maxHeight
    ensures g.interval > 1 ==> GrowStep(g, maxHeight) == Growth(g.height, g.interval - 1)
    ensures g.interval <= 1 ==> GrowStep(g, maxHeight).interval == GrowTimeInterval
    ensures g.interval <= 1 ==> GrowStep(g, maxHeight).height == (g.height + 1.0).Floor as real
  {
  }

  /** The counter stays within 1..500 once it starts there. */
  lemma GrowKeepsIntervalInRange(g: Growth, maxHeight: real)
    requires 1 <= g.interval <= GrowTimeInterval
    ensures 1 <= GrowStep(g, maxHeight).interval <= GrowTimeInterval
  {
  }

  lemma {:induction false} GrowIterateCountsDown(h: real, maxHeight: real, interval: int, k: nat)
    requires h != maxHeight && k < interval
    ensures GrowIterate(Growth(h, interval), maxHeight, k) == Growth(h, interval - k)
  {
    if k > 0 {
      GrowIterateCountsDown(h, maxHeight, interval, k - 1);
    }
  }

  /**
   * Below the cap, a counter at `n` keeps the height for `n - 1` calls and bumps it on
   * the `n`-th; from a freshly reset counter that is once every 500 calls.
   */
  lemma {:induction false} HeightChangesEveryIntervalCalls(h: real, maxHeight: real, n: nat)
    requires h != maxHeight && 1 <= n
    ensures forall k :: 0 <= k < n ==> GrowIterate(Growth(h, n), maxHeight, k).height == h
    ensures GrowIterate(Growth(h, n), maxHeight, n) == Growth((h + 1.0).Floor as real, GrowTimeInterval)
  {
    forall k | 0 <= k < n
      ensures GrowIterate(Growth(h, n), maxHeight, k).height == h
    {
      GrowIterateCountsDown(h, maxHeight, n, k);
    }
    GrowIterateCountsDown(h, maxHeight, n, n - 1);
  }

  /** From the default height 0.1 the first bump gives height 1. */
  lemma FirstBumpFromDefault()
    ensures (DefaultHeight + 1.0).Floor as real == 1.0
  {
  }

  /**
   * With the constructor's defaults (height 0.1, maxHeight 0) the cap is never
   * reached: the height only grows, so `grow` keeps counting forever.
   */
  lemma {:induction false} DefaultBuildingNeverCaps(n: nat)
    ensures GrowIterate(Growth(DefaultHeight, GrowTimeInterval), 0.0, n).height >= DefaultHeight
  {
    if n > 0 {
      DefaultBuildingNeverCaps(n - 1);
    }
  }
}
