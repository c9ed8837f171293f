/**
 * `FrameCounter` of utils.js: a sliding window of the most recent frame
 * timestamps (integer milliseconds) from which the average frame interval
 * and the frame rate are derived.
 */
module FrameCounting {
  import opened Utils

  /** The rate in frames per second for an average interval in milliseconds. */
  function RateFor(interval: real): (r: Num)
    ensures interval == 0.0 <==> r == Infinity
    ensures interval != 0.0 ==> r.Finite? && r.value * interval == 1000.0
  {
    if interval == 0.0 then Infinity else Finite(1000.0 / interval)
  }

  /** The mean gap between the oldest and the newest of `times`. */
  function AverageInterval(times: seq<int>): real
    requires |times| > 1
  {
    (times[|times| - 1] - times[0]) as real / (|times| - 1) as real
  }

  /** `1000 / (t - first) * depth`: +Infinity when `t` equals `first`. */
  function ProjectedRate(t: int, first: int, depth: nat): Num
    requires depth > 0
  {
    if t == first then Infinity else Finite(1000.0 / (t - first) as real * depth as real)
  }

  /**
   * Projecting one more frame at `t` onto a window of `d` frames gives the
   * rate the window would report once `t` were pushed without eviction.
   */
  lemma ProjectedIsPushedRate(t: int, first: int, d: nat)
    requires d > 0
    ensures ProjectedRate(t, first, d) == RateFor((t - first) as real / d as real)
  {
    var g := (t - first) as real;
    if g != 0.0 {
      assert 1000.0 / (g / d as real) == 1000.0 / g * d as real;
    }
  }

  class FrameCounter {
    const maxDepth: int
    var frameTimes: seq<int>
    var depth: nat
    var lastTime: Option<int>
    var averageInterval: Option<real>
    var frameRate: Num
    var full: bool

    /** The counter's fields are consistent with the window they describe. */
    predicate Valid()
      reads this
    {
      && |frameTimes| == depth
      && (full <==> depth > 0 && depth == maxDepth)
      && (maxDepth > 0 ==> depth <= maxDepth)
      && lastTime == (if depth == 0 then None else Some(frameTimes[depth - 1]))
      && (depth <= 1 ==> averageInterval == None && frameRate == Undefined)
      && (depth > 1 ==> averageInterval == Some(AverageInterval(frameTimes))
                        && frameRate == RateFor(AverageInterval(frameTimes)))
    }

    /** The state the constructor establishes and `reset` restores. */
    predicate Initial()
      reads this
    {
      frameTimes == [] && depth == 0 && lastTime == None
      && averageInterval == None && frameRate == Undefined && !full
    }

    /** `new FrameCounter(depth)`; the display uses the default depth, 20. */
    constructor (maxDepth: int)
      ensures Valid() && Initial() && this.maxDepth == maxDepth
    {
      this.maxDepth := maxDepth;
      frameTimes := [];
      depth := 0;
      lastTime := None;
      averageInterval := None;
      frameRate := Undefined;
      full := false;
    }

    /**
     * Records a frame at `time`: once the window is full the oldest time is
     * evicted first; the window grows by one frame otherwise.
     */
    method Push(time: int)
      requires Valid()
      modifies this
      ensures Valid()
      ensures frameTimes == if old(full) then old(frameTimes)[1..] + [time]
                            else old(frameTimes) + [time]
      ensures depth == if old(full) then old(depth) else old(depth) + 1
      ensures maxDepth > 0 ==> depth <= maxDepth
      ensures full <==> depth == maxDepth
      ensures lastTime == Some(time)
      ensures old(depth) == 0 ==> averageInterval == None && frameRate == Undefined
      ensures !old(full) && old(depth) > 0 ==> frameRate == old(Test(time))
    {
      if full {
        frameTimes := frameTimes[1..];
      } else {
        depth := depth + 1;
        full := depth == maxDepth;
      }
      frameTimes := frameTimes + [time];
      if depth > 1 {
        averageInterval := Some(AverageInterval(frameTimes));
        frameRate := RateFor(AverageInterval(frameTimes));
      }
      lastTime := Some(time);
      if !old(full) && old(depth) > 0 {
        ProjectedIsPushedRate(time, frameTimes[0], old(depth));
      }
    }

    /**
     * The rate the window would show with a frame at `time`, computed over
     * `depth` rather than `depth - 1` intervals; undefined while empty.
     */
    function Test(time: int): (r: Num)
      requires Valid()
      reads this
      ensures r == Undefined <==> depth == 0
      ensures depth > 0 ==> r == RateFor((time - frameTimes[0]) as real / depth as real)
    {
      if depth > 0 then
        ProjectedIsPushedRate(time, frameTimes[0], depth);
        ProjectedRate(time, frameTimes[0], depth)
      else
        Undefined
    }

    /** Empties the window, restoring the constructor's state. */
    method Reset()
      requires Valid()
      modifies this
      ensures Valid() && Initial()
    {
      frameTimes := [];
      depth := 0;
      lastTime := None;
      averageInterval := None;
      frameRate := Undefined;
      full := false;
    }
  }

  /** Frames 25 ms apart are reported as 40 frames per second. */
  lemma {:induction false} EvenSpacing(times: seq<int>)
    requires |times| > 1
    requires forall i :: 0 < i < |times| ==> times[i] == times[i - 1] + 25
    ensures RateFor(AverageInterval(times)) == Finite(40.0)
  {
    var k := |times| - 1;
    Spacing(times, k);
    var x := k as real;
    assert (times[k] - times[0]) as real == 25.0 * x;
    CancelDivisor(25.0, x);
  }

  lemma CancelDivisor(c: real, x: real)
    requires x > 0.0
    ensures c * x / x == c
  {
  }

  lemma {:induction false} Spacing(times: seq<int>, k: nat)
    requires k < |times|
    requires forall i :: 0 < i < |times| ==> times[i] == times[i - 1] + 25
    ensures times[k] - times[0] == 25 * k
  {
    if k > 0 { Spacing(times, k - 1); }
  }
}
