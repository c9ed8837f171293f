/**
 * `FireworksDisplay` of fireworks.js: the two FIFO lists of fireworks (the
 * live ones and the dropped ones that are fading out), the per-frame
 * decisions of its animation loop (frame ratio, stall reset, frame skipping
 * and the governor that adds or drops a firework every five seconds), the
 * mood-driven change of traits in `doAnimation` and the purge of faded
 * fireworks in `doDrawing`.
 *
 * Clock readings (`performance.now()`, integer milliseconds), the container's
 * size and every random draw are parameters.
 */
module Display {
  import opened Utils
  import opened Traits
  import opened FrameCounting
  import opened Fireworks

  const TargetAnimationRate: real := 40.0
  const DecentDrawRate: real := 30.0
  const AcceptableDrawRate: real := 25.0
  const NotionalAnimationRate: real := 20.0
  const FireworkChangeInterval: int := 5000
  const PixelsPerFirework: int := 300 * 300

  /** The depth both frame counters are created with. */
  const CounterDepth: int := 20

  // ---------------------------------------------------------------------
  // The loop's decisions, as functions of what it reads.

  /**
   * The time since the previous animation frame, or the notional interval
   * of 50 ms when no frame has been counted yet.
   */
  function Delta(depth: nat, lastTime: Option<int>, now: int): (d: real)
    ensures depth == 0 || lastTime.None? ==> d == 50.0 && FrameRatio(d) == 1.0
    ensures depth > 0 && lastTime.Some? ==> lastTime.value as real + d == now as real
  {
    if depth > 0 && lastTime.Some? then (now - lastTime.value) as real else 1000.0 / NotionalAnimationRate
  }

  /** `frame_ratio`: the elapsed time in notional frames, capped at one frame. */
  function FrameRatio(delta: real): (fr: real)
    ensures fr <= 1.0
    ensures delta >= 50.0 <==> fr == 1.0
    ensures delta < 50.0 ==> fr * 50.0 == delta
  {
    Min(1.0, delta / 1000.0 * NotionalAnimationRate)
  }

  /** An empty counter gives a whole notional frame. */
  lemma {:induction false} FirstFrameWhole(lastTime: Option<int>, now: int)
    ensures FrameRatio(Delta(0, lastTime, now)) == 1.0
  {
  }

  /**
   * Both counters are reset after a stall: more than half a second since the
   * last frame, or, once more than five frames are counted, a gap more than
   * five times the average interval. An undefined average compares false.
   */
  predicate Stalled(delta: real, depth: nat, average: Option<real>): (r: bool)
    ensures delta > 500.0 ==> r
    ensures depth <= 5 || average.None? ==> (r <==> delta > 500.0)
    ensures r && delta <= 500.0 ==> depth > 5 && average.Some? && delta > 5.0 * average.value
  {
    delta > 500.0 || (depth > 5 && average.Some? && delta > 5.0 * average.value)
  }

  /**
   * The draw is skipped when the previous frame was drawn, drawing is fast
   * enough and animation lags behind its target rate.
   */
  predicate SkipDraw(droppedLastFrame: bool, drawingRate: Num, animationRate: Num): (r: bool)
    ensures r ==> !droppedLastFrame
    ensures drawingRate == Undefined || animationRate == Undefined || animationRate == Infinity ==> !r
    ensures r ==> animationRate.Finite? && animationRate.value < TargetAnimationRate
  {
    !droppedLastFrame && Above(drawingRate, AcceptableDrawRate) && Below(animationRate, TargetAnimationRate)
  }

  /** Two frames in a row are never both skipped. */
  lemma {:induction false} NeverTwoSkips(drawingRate: Num, animationRate: Num)
    ensures !SkipDraw(true, drawingRate, animationRate)
  {
  }

  /** A draw rate that is undefined or infinite never counts as too slow. */
  lemma {:induction false} UnmeasuredRateNotSlow(animationRate: Num)
    ensures !Below(Undefined, AcceptableDrawRate) && !Below(Infinity, AcceptableDrawRate)
    ensures SkipDraw(false, Infinity, animationRate) <==> Below(animationRate, TargetAnimationRate)
  {
  }

  /** `Math.ceil(width * height / PIXELS_PER_FIREWORK)` for integer sizes. */
  function MaxFireworksFor(width: int, height: int): (m: int)
    ensures (m - 1) * PixelsPerFirework < width * height <= m * PixelsPerFirework
  {
    var a := width * height;
    var q := a / PixelsPerFirework;
    if a % PixelsPerFirework == 0 then q else q + 1
  }

  /**
   * The population cap: the canvas's own cap, lowered to the mood's when the
   * mood has one (a cap of 0 counts as none, since 0 is falsy).
   */
  function Cap(maxFireworks: int, moodMax: Option<int>): (cap: int)
    ensures cap <= maxFireworks
    ensures moodMax.Some? && moodMax.value != 0 ==> cap <= moodMax.value
    ensures cap == maxFireworks || (moodMax.Some? && cap == moodMax.value)
  {
    if moodMax.Some? && moodMax.value != 0 then
      (if maxFireworks <= moodMax.value then maxFireworks else moodMax.value)
    else
      maxFireworks
  }

  /** What the governor does once its interval has passed. */
  datatype Change = Keep | Drop | Add

  /**
   * The governor as written: drop a firework when there are more than the
   * cap, or more than one while drawing is too slow; otherwise add one when
   * there are fewer than the cap and drawing is fast. `count` counts the
   * dying fireworks too.
   */
  function Governor(count: nat, cap: int, rate: Num): (c: Change)
    ensures c == Drop <==> count > cap || (count > 1 && Below(rate, AcceptableDrawRate))
    ensures c == Add <==> !(count > cap || (count > 1 && Below(rate, AcceptableDrawRate)))
                          && count < cap && Above(rate, DecentDrawRate)
  {
    if count > cap || (count > 1 && Below(rate, AcceptableDrawRate)) then Drop
    else if count < cap && Above(rate, DecentDrawRate) then Add
    else Keep
  }

  /**
   * The written governor can decide to drop while no live firework is left
   * (two dying ones, a slow draw rate), and `dropFirework` then shifts
   * `undefined` out of the empty list and fails.
   */
  lemma {:induction false} GovernorDropsFromEmpty()
    ensures var active, dying := 0, 2;
      Governor(active + dying, 1, Finite(20.0)) == Drop && active == 0
  {
  }

  /**
   * The governor with the evident guard: a drop is only considered while a
   * live firework exists; otherwise the decision is the written one.
   */
  function GovernorGuarded(active: nat, dying: nat, cap: int, rate: Num): (c: Change)
    ensures c == Drop ==> active > 0
    ensures active > 0 ==> c == Governor(active + dying, cap, rate)
    ensures active == 0 ==> c == (if dying < cap && Above(rate, DecentDrawRate) then Add else Keep)
  {
    var count := active + dying;
    if active > 0 && (count > cap || (count > 1 && Below(rate, AcceptableDrawRate))) then Drop
    else if count < cap && Above(rate, DecentDrawRate) then Add
    else Keep
  }

  /** The guarded governor keeps the population at or under the cap: it only adds below it. */
  lemma {:induction false} GovernorRespectsCap(active: nat, dying: nat, cap: int, rate: Num)
    ensures GovernorGuarded(active, dying, cap, rate) == Add ==> active + dying + 1 <= cap
    ensures active > 0 && active + dying > cap ==> GovernorGuarded(active, dying, cap, rate) == Drop
  {
  }

  /** The stability a firework's change of traits is weighed with. */
  function StabilityFor(fireworkMood: Option<Mood>, mood: Mood): (s: real)
    ensures fireworkMood == Some(mood) ==> s == mood.stability
    ensures fireworkMood != Some(mood) ==> s == 50.0
  {
    if fireworkMood == Some(mood) then mood.stability else 50.0
  }

  /**
   * `random(0, stability / frame_ratio) <= 1` for the draw `u`. A zero
   * frame ratio makes the bound infinite (or NaN when the stability is
   * also zero or the draw is 0), which only a negative stability can pass.
   */
  predicate Mutates(stability: real, fr: real, u: Unit): (r: bool)
    ensures fr > 0.0 && stability <= fr ==> r
    ensures fr == 0.0 ==> (r <==> stability < 0.0 && u > 0.0)
  {
    if fr == 0.0 then stability < 0.0 && u > 0.0 else Uniform(0.0, stability / fr, u) <= 1.0
  }

  /**
   * For a positive frame ratio and stability, traits change exactly for the
   * draws up to `fr / stability`: the chance per frame is the frame ratio
   * over the stability.
   */
  lemma {:induction false} MutationThreshold(stability: real, fr: real, u: Unit)
    requires fr > 0.0 && stability > 0.0
    ensures Mutates(stability, fr, u) <==> u * stability <= fr
  {
    var b := stability / fr;
    assert Uniform(0.0, b, u) == u * b;
    ScaledBound(u, stability, fr);
  }

  lemma ScaledBound(u: real, s: real, fr: real)
    requires fr > 0.0
    ensures u * (s / fr) <= 1.0 <==> u * s <= fr
  {
    assert u * (s / fr) == (u * s) / fr;
  }

  /** The trait class `addFirework` and `doAnimation` pick from the mood. */
  function PickKind(mood: Mood, u: Unit): (k: Kind)
    requires |mood.traits| > 0
    ensures k in mood.traits
  {
    mood.traits[ChooseIndex(|mood.traits|, u)]
  }

  /** Where `addFirework` puts a firework: the middle half of the canvas in each direction. */
  function Spot(width: int, height: int, ux: Unit, uy: Unit, ud: Unit): (r: (real, real, real))
    requires width > 0 && height > 0
    ensures width as real * 0.25 <= r.0 < width as real * 0.75
    ensures height as real * 0.25 <= r.1 < height as real * 0.75
    ensures 0.0 <= r.2 < 2.0 * PI
  {
    (Uniform(width as real * 0.25, width as real * 0.75, ux),
     Uniform(height as real * 0.25, height as real * 0.75, uy),
     Uniform(0.0, 2.0 * PI, ud))
  }

  /** The random draws one new or re-traited firework consumes. */
  datatype TraitDraws = TraitDraws(pick: Unit, u1: Unit, u2: Unit)

  /** The random draws one firework consumes in one animation frame. */
  datatype FrameDraws = FrameDraws(change: Unit, traits: TraitDraws, noise: Noise, spawn: nat -> SpawnDraw)

  /** No two fireworks share an object. */
  ghost predicate Disjoint(fs: seq<Firework>)
    reads set i | 0 <= i < |fs| :: fs[i]
  {
    forall i, j :: 0 <= i < j < |fs| ==> fs[i].Repr !! fs[j].Repr
  }

  lemma DisjointAppend(fs: seq<Firework>, f: Firework)
    requires Disjoint(fs) && forall i :: 0 <= i < |fs| ==> fs[i].Repr !! f.Repr
    ensures Disjoint(fs + [f])
  {
  }

  /** What the mutation rule decides about a firework: its mood and the class of its traits. */
  datatype Look = Look(mood: Option<Mood>, kind: Kind)

  function LookOf(f: Firework): Look
    reads f, f.traits
  {
    Look(f.mood, f.traits.profile.kind)
  }

  function Looks(fs: seq<Firework>): (r: seq<Look>)
    reads Objects(fs)
    ensures |r| == |fs| && forall i :: 0 <= i < |fs| ==> r[i] == LookOf(fs[i])
  {
    seq(|fs|, i reads Objects(fs) requires 0 <= i < |fs| => LookOf(fs[i]))
  }

  /**
   * One firework through one frame of `doAnimation`: a live one takes new
   * traits of a class picked from the display's mood, and that mood, when
   * `Mutates` says so; a dying one, or a live one that does not mutate,
   * keeps both (`update` pulses the traits but keeps their class).
   */
  function Animated(l: Look, live: bool, mood: Mood, fr: real, d: FrameDraws): (r: Look)
    requires |mood.traits| > 0
  {
    if live && Mutates(StabilityFor(l.mood, mood), fr, d.change) then
      Look(Some(mood), PickKind(mood, d.traits.pick))
    else
      l
  }

  /**
   * `doAnimation` on the looks of every firework, dying ones first as in
   * `All()`; the `i`-th firework consumes the draws `ds(i)`.
   */
  function AnimatedAll(ls: seq<Look>, dying: nat, mood: Mood, fr: real, ds: nat -> FrameDraws): (r: seq<Look>)
    requires |mood.traits| > 0
    ensures |r| == |ls|
    ensures forall i :: 0 <= i < |ls| ==> r[i] == Animated(ls[i], i >= dying, mood, fr, ds(i))
  {
    seq(|ls|, i requires 0 <= i < |ls| => Animated(ls[i], i >= dying, mood, fr, ds(i)))
  }

  /**
   * What `doAnimation` can do to a firework's look: a dying one keeps it;
   * a live one keeps it or takes the display's mood and a trait class of
   * that mood. A live firework already in the display's mood mutates only
   * when its draw is at most the frame ratio over the mood's stability.
   */
  lemma {:induction false} AnimatedAllShape(ls: seq<Look>, dying: nat, mood: Mood, fr: real, ds: nat -> FrameDraws)
    requires |mood.traits| > 0
    ensures var r := AnimatedAll(ls, dying, mood, fr, ds);
      && (forall i :: 0 <= i < |ls| && i < dying ==> r[i] == ls[i])
      && (forall i :: dying <= i < |ls| ==>
            r[i] == ls[i] || (r[i].mood == Some(mood) && r[i].kind in mood.traits))
      && (forall i :: dying <= i < |ls| && ls[i].mood == Some(mood) && fr > 0.0 && mood.stability > 0.0 ==>
            (r[i] != ls[i] ==> ds(i).change * mood.stability <= fr))
  {
    var r := AnimatedAll(ls, dying, mood, fr, ds);
    forall i | dying <= i < |ls|
      ensures r[i] == ls[i] || (r[i].mood == Some(mood) && r[i].kind in mood.traits)
      ensures ls[i].mood == Some(mood) && fr > 0.0 && mood.stability > 0.0 ==>
                (r[i] != ls[i] ==> ds(i).change * mood.stability <= fr)
    {
      if ls[i].mood == Some(mood) && fr > 0.0 && mood.stability > 0.0 {
        MutationThreshold(mood.stability, fr, ds(i).change);
      }
    }
  }

  /** Fresh traits of the given class. */
  method NewTraits(kind: Kind, d: TraitDraws, now: int) returns (t: Traits)
    ensures fresh(t) && t.Valid() && t.profile.kind == kind
  {
    t := new Traits(kind, d.u1, d.u2, now);
  }

  /** A firework with the traits `t` at `spot`, carrying `mood`, on no list yet. */
  method NewFirework(t: Traits, spot: (real, real, real), mood: Mood) returns (f: Firework)
    requires t.Valid()
    ensures fresh(f.Repr - {t}) && f.Valid() && f in f.Repr && t in f.Repr && f.traits == t
    ensures f.mood == Some(mood) && f.IsEmpty() && (f.x, f.y, f.direction) == spot
  {
    f := new Firework(t, spot.0, spot.1, spot.2);
    f.mood := Some(mood);
  }

  /**
   * `update` seen from the display: the firework keeps its traits object
   * and its mood, its traits pulse, and its active particles stay within
   * the traits' maximum.
   */
  method Step(f: Firework, fr: real, width: real, height: real, now: int, trig: Trig, noise: Noise, draws: nat -> SpawnDraw)
    requires f.Valid() && width > 0.0 && height > 0.0
    modifies f.Repr
    ensures f.Valid() && fresh(f.Repr - old(f.Repr))
    ensures f.traits == old(f.traits) && LookOf(f) == old(LookOf(f))
  {
    ghost var added := f.Update(fr, width, height, now, trig, noise, draws);
  }

  /** The traits of a dropped firework. */
  method NewDeadDuck(now: int) returns (t: Traits)
    ensures fresh(t) && t.Valid() && t.profile == DeadDuckProfile
  {
    t := new Traits(DeadDuck, 0.0, 0.0, now);
    DeadDuckShape(0.0, 0.0, now);
  }

  /** The firework is valid, owns itself and its traits, and lies inside `repr`. */
  ghost predicate OwnedBy(f: Firework, repr: set<object>)
    reads f, f.traits
  {
    f in f.Repr && f.traits in f.Repr && f.Repr <= repr && f.Valid()
  }

  /** The fireworks and their traits. */
  ghost function Objects(fs: seq<Firework>): set<object>
    reads set i | 0 <= i < |fs| :: fs[i]
  {
    (set i | 0 <= i < |fs| :: fs[i]) + (set i | 0 <= i < |fs| :: fs[i].traits)
  }

  /** The fireworks lie inside `repr`; each is valid and owns its traits, and no two share an object. */
  ghost predicate Fleet(fs: seq<Firework>, repr: set<object>)
    reads repr
  {
    && (forall i :: 0 <= i < |fs| ==> fs[i] in repr)
    && (forall i :: 0 <= i < |fs| ==> fs[i].traits in repr && OwnedBy(fs[i], repr))
    && Disjoint(fs)
  }

  /** A fleet grows by a firework that owns objects of its own. */
  lemma FleetAppend(fs: seq<Firework>, f: Firework, r1: set<object>, r2: set<object>)
    requires Fleet(fs, r1) && r1 <= r2 && OwnedBy(f, r2) && f.Repr !! r1
    ensures Fleet(fs + [f], r2)
  {
    forall i | 0 <= i < |fs|
      ensures fs[i].Repr !! f.Repr
    {
      assert OwnedBy(fs[i], r1);
    }
    DisjointAppend(fs, f);
  }

  /**
   * `Fleet` for every firework but the `k`-th, whose footprint `avoid` the
   * others keep clear of; it reads nothing in `avoid`.
   */
  ghost predicate FleetBut(fs: seq<Firework>, k: nat, repr: set<object>, avoid: set<object>)
    reads repr - avoid
  {
    && (forall i :: 0 <= i < |fs| && i != k ==> fs[i] in repr - avoid)
    && (forall i :: 0 <= i < |fs| && i != k ==>
          fs[i].traits in repr - avoid && OwnedBy(fs[i], repr) && fs[i].Repr !! avoid)
    && (forall i, j :: 0 <= i < j < |fs| && i != k && j != k ==> fs[i].Repr !! fs[j].Repr)
  }

  /** A fleet minus one firework, whose footprint may grow by `extra`, an object set the fleet does not own. */
  lemma FleetSplit(fs: seq<Firework>, k: nat, repr: set<object>, extra: set<object>)
    requires Fleet(fs, repr) && k < |fs| && extra !! repr
    ensures FleetBut(fs, k, repr, fs[k].Repr + extra) && OwnedBy(fs[k], repr)
  {
    forall i | 0 <= i < |fs| && i != k
      ensures fs[i].Repr !! fs[k].Repr + extra
    {
      assert OwnedBy(fs[i], repr);
      if i < k { assert fs[i].Repr !! fs[k].Repr; } else { assert fs[k].Repr !! fs[i].Repr; }
    }
  }

  /**
   * The converse: the `k`-th firework rejoins the fleet, its footprint
   * grown only by objects the fleet did not own.
   */
  lemma FleetJoin(fs: seq<Firework>, k: nat, r0: set<object>, repr: set<object>, avoid: set<object>)
    requires k < |fs| && r0 <= repr
    requires FleetBut(fs, k, r0, avoid) && OwnedBy(fs[k], repr) && fs[k].Repr - avoid !! r0
    ensures Fleet(fs, repr)
  {
    forall i | 0 <= i < |fs| && i != k
      ensures fs[i].Repr !! fs[k].Repr
    {
      assert OwnedBy(fs[i], r0);
    }
  }

  /** Which of the fireworks have faded out completely. */
  function Emptiness(fs: seq<Firework>): (r: seq<bool>)
    reads set i | 0 <= i < |fs| :: fs[i]
    ensures |r| == |fs| && forall i :: 0 <= i < |fs| ==> r[i] == fs[i].IsEmpty()
  {
    seq(|fs|, i reads set i | 0 <= i < |fs| :: fs[i] requires 0 <= i < |fs| => fs[i].IsEmpty())
  }

  /**
   * The purge at the end of `doDrawing`: `d` is `d0` without its longest
   * prefix of empty fireworks, `empty[i]` saying whether `d0[i]` is empty.
   * Empty fireworks behind a non-empty one stay.
   */
  ghost predicate PurgedFront<T>(d0: seq<T>, empty: seq<bool>, d: seq<T>)
    requires |empty| == |d0|
  {
    && |d| <= |d0| && d == d0[|d0| - |d|..]
    && (forall i :: 0 <= i < |d0| - |d| ==> empty[i])
    && (|d| > 0 ==> !empty[|d0| - |d|])
  }

  /** The purge has one outcome: the list it leaves is determined by the emptiness flags. */
  lemma {:induction false} PurgedFrontUnique<T>(d0: seq<T>, empty: seq<bool>, d1: seq<T>, d2: seq<T>)
    requires |empty| == |d0| && PurgedFront(d0, empty, d1) && PurgedFront(d0, empty, d2)
    ensures d1 == d2
  {
  }

  /** Purging a list with no empty firework keeps it whole; purging an all-empty list empties it. */
  lemma {:induction false} PurgedFrontExtremes<T>(d0: seq<T>, empty: seq<bool>, d: seq<T>)
    requires |empty| == |d0| && PurgedFront(d0, empty, d)
    ensures (forall i :: 0 <= i < |d0| ==> !empty[i]) ==> d == d0
    ensures (forall i :: 0 <= i < |d0| ==> empty[i]) ==> d == []
  {
    if |d| < |d0| {
      assert empty[0];
    }
  }

  /** A fleet stays one when its oldest firework leaves it. */
  lemma FleetTail(fs: seq<Firework>, repr: set<object>)
    requires Fleet(fs, repr) && |fs| > 0
    ensures Fleet(fs[1..], repr)
  {
    forall i, j | 0 <= i < j < |fs| - 1
      ensures fs[1..][i].Repr !! fs[1..][j].Repr
    {
      assert fs[1..][i] == fs[i + 1] && fs[1..][j] == fs[j + 1];
    }
  }

  class FireworksDisplay {
    var width: int
    var height: int
    var maxFireworks: int
    var fireworks: seq<Firework>
    var dyingFireworks: seq<Firework>
    const animationCounter: FrameCounter
    const drawingCounter: FrameCounter
    var mood: Mood
    var lastFireworkTime: int
    ghost var Repr: set<object>

    /**
     * Every firework, in the order they were added: a drop moves the head
     * of the live list to the back of the dying one, so it leaves this
     * sequence as it is.
     */
    function All(): seq<Firework>
      reads this
    {
      dyingFireworks + fireworks
    }

    /**
     * The counters are separate and 20 frames deep, the canvas is not
     * empty, the mood has traits to pick from, and each firework is valid
     * and owns its objects alone.
     */
    ghost predicate Valid()
      reads this, Repr
    {
      && this in Repr && animationCounter in Repr && drawingCounter in Repr
      && CountersValid() && width > 0 && height > 0 && |mood.traits| > 0
      && Fleet(All(), Owned())
    }

    /** The objects the fireworks own between them. */
    ghost function Owned(): set<object>
      reads this
    {
      Repr - {this, animationCounter, drawingCounter}
    }

    /** The two frame counters are separate, consistent and 20 frames deep. */
    ghost predicate CountersValid()
      reads animationCounter, drawingCounter
    {
      && animationCounter != drawingCounter
      && animationCounter.Valid() && drawingCounter.Valid()
      && animationCounter.maxDepth == CounterDepth && drawingCounter.maxDepth == CounterDepth
    }

    /** The fields only `addFirework`, `dropFirework` and `doDrawing` change. */
    function Settings(): (int, int, int, Mood, int)
      reads this
    {
      (width, height, maxFireworks, mood, lastFireworkTime)
    }

    /**
     * The state the constructor leaves the display in: a canvas of the
     * container's size, fresh counters, the given mood (`DefaultMood` in the
     * source) and one firework added at `now`.
     */
    constructor (width: int, height: int, mood: Mood, d: TraitDraws, ux: Unit, uy: Unit, ud: Unit, now: int)
      requires width > 0 && height > 0 && |mood.traits| > 0
      ensures Valid()
      ensures this.width == width && this.height == height && this.mood == mood
      ensures maxFireworks == MaxFireworksFor(width, height)
      ensures |fireworks| == 1 && dyingFireworks == [] && lastFireworkTime == now
      ensures animationCounter.Initial() && drawingCounter.Initial()
      ensures var f := fireworks[0];
        && fresh(f) && fresh(f.traits) && f.mood == Some(mood) && f.IsEmpty()
        && f.traits.profile.kind == PickKind(mood, d.pick)
        && (f.x, f.y, f.direction) == Spot(width, height, ux, uy, ud)
    {
      this.width, this.height := width, height;
      maxFireworks := MaxFireworksFor(width, height);
      animationCounter := new FrameCounter(CounterDepth);
      drawingCounter := new FrameCounter(CounterDepth);
      this.mood := mood;
      fireworks, dyingFireworks := [], [];
      lastFireworkTime := now;
      Repr := {this, animationCounter, drawingCounter};
      new;
      AddFirework(d, ux, uy, ud, now);
    }

    /**
     * `addFirework()`: a new firework of a trait class picked from the mood,
     * placed in the middle half of the canvas, joins the back of the live
     * list; the change time becomes `now`.
     */
    method AddFirework(d: TraitDraws, ux: Unit, uy: Unit, ud: Unit, now: int)
      requires Valid()
      modifies this
      ensures Valid() && fresh(Repr - old(Repr))
      ensures |fireworks| == |old(fireworks)| + 1 && fireworks[..|fireworks| - 1] == old(fireworks)
      ensures dyingFireworks == old(dyingFireworks) && lastFireworkTime == now
      ensures (width, height, maxFireworks, mood) == old((width, height, maxFireworks, mood))
      ensures var f := fireworks[|fireworks| - 1];
        && fresh(f) && fresh(f.traits) && f.mood == Some(mood) && f.IsEmpty()
        && f.traits.profile.kind == PickKind(mood, d.pick)
        && (f.x, f.y, f.direction) == Spot(width, height, ux, uy, ud)
    {
      var t := NewTraits(PickKind(mood, d.pick), d, now);
      var f := NewFirework(t, Spot(width, height, ux, uy, ud), mood);
      Enlist(f, now);
      assert fireworks[..|fireworks| - 1] == old(fireworks);
    }

    /** Appends a firework that shares no object with the display to the live list. */
    method Enlist(f: Firework, now: int)
      requires Valid() && f.Valid() && f in f.Repr && f.traits in f.Repr && f.Repr !! Repr
      modifies this
      ensures Valid() && Repr == old(Repr) + f.Repr
      ensures fireworks == old(fireworks) + [f] && dyingFireworks == old(dyingFireworks)
      ensures lastFireworkTime == now && (width, height, maxFireworks, mood) == old((width, height, maxFireworks, mood))
    {
      ghost var fs := All();
      fireworks, Repr, lastFireworkTime := fireworks + [f], Repr + f.Repr, now;
      assert All() == fs + [f];
      FleetAppend(fs, f, old(Owned()), Owned());
    }

    /**
     * `dropFirework()`: the oldest live firework gets `DeadDuck` traits and
     * moves to the back of the dying list; the change time becomes `now`.
     * The live list must not be empty: shifting `undefined` out of it fails.
     */
    method DropFirework(now: int)
      requires Valid() && |fireworks| > 0
      modifies this, fireworks[0]
      ensures Valid() && fresh(Repr - old(Repr))
      ensures fireworks == old(fireworks)[1..] && dyingFireworks == old(dyingFireworks) + [old(fireworks)[0]]
      ensures All() == old(All()) && lastFireworkTime == now
      ensures (width, height, maxFireworks, mood) == old((width, height, maxFireworks, mood))
      ensures var f := old(fireworks)[0];
        && fresh(f.traits) && f.traits.profile == DeadDuckProfile && f.mood == old(f.mood)
        && f.Fields() == old(f.Fields()) && f.particles == old(f.particles) && f.deathRow == old(f.deathRow)
    {
      var t := NewDeadDuck(now);
      var f := fireworks[0];
      Retrait(|dyingFireworks|, f, t, f.mood);
      Shift(now);
    }

    /**
     * Gives the `k`-th firework (dying ones first) the traits `t` and the
     * mood `m`; nothing else changes.
     */
    method Retrait(k: nat, f: Firework, t: Traits, m: Option<Mood>)
      requires Valid() && k < |All()| && All()[k] == f && t.Valid() && t !in Repr
      modifies this, f
      ensures Valid() && Repr == old(Repr) + {t}
      ensures fireworks == old(fireworks) && dyingFireworks == old(dyingFireworks) && Settings() == old(Settings())
      ensures f.traits == t && f.Fields() == old(f.Fields()).(mood := m) && f.Repr == old(f.Repr) + {t}
      ensures f.particles == old(f.particles) && f.deathRow == old(f.deathRow)
      ensures forall j :: 0 <= j < |All()| && j != k ==> LookOf(All()[j]) == old(LookOf(All()[j]))
    {
      ghost var fs, r0 := All(), Owned();
      FleetSplit(fs, k, r0, {t});
      ghost var avoid := f.Repr + {t};
      f.SetTraits(t, m);
      Repr := Repr + {t};
      FleetJoin(fs, k, r0, Owned(), avoid);
    }

    /**
     * `firework.update(frame_ratio, this.width, this.height)` for the
     * `k`-th firework: its traits object and mood stay, its traits pulse,
     * and no other firework changes.
     */
    method UpdateFirework(k: nat, f: Firework, fr: real, now: int, trig: Trig, noise: Noise, draws: nat -> SpawnDraw)
      requires Valid() && k < |All()| && All()[k] == f
      modifies this, f.Repr
      ensures Valid() && fresh(Repr - old(Repr))
      ensures fireworks == old(fireworks) && dyingFireworks == old(dyingFireworks) && Settings() == old(Settings())
      ensures LookOf(f) == old(LookOf(f))
      ensures forall j :: 0 <= j < |All()| && j != k ==> LookOf(All()[j]) == old(LookOf(All()[j]))
    {
      ghost var fs, r0 := All(), Owned();
      FleetSplit(fs, k, r0, {});
      ghost var avoid := f.Repr;
      Step(f, fr, width as real, height as real, now, trig, noise, draws);
      Repr := Repr + f.Repr;
      FleetJoin(fs, k, r0, Owned(), avoid);
    }

    /**
     * One iteration of either loop of `doAnimation(frame_ratio)` for the
     * `k`-th firework: the mutation rule (live fireworks only), then
     * `update`.
     */
    method AnimateAt(k: nat, fr: real, now: int, trig: Trig, d: FrameDraws)
      requires Valid() && k < |All()|
      modifies this, All()[k].Repr
      ensures Valid() && fresh(Repr - old(Repr))
      ensures fireworks == old(fireworks) && dyingFireworks == old(dyingFireworks) && Settings() == old(Settings())
      ensures LookOf(All()[k]) == Animated(old(LookOf(All()[k])), k >= |dyingFireworks|, mood, fr, d)
      ensures forall j :: 0 <= j < |All()| && j != k ==> LookOf(All()[j]) == old(LookOf(All()[j]))
    {
      var f := if k < |dyingFireworks| then dyingFireworks[k] else fireworks[k - |dyingFireworks|];
      assert All()[k] == f;
      if k >= |dyingFireworks| && Mutates(StabilityFor(f.mood, mood), fr, d.change) {
        var t := NewTraits(PickKind(mood, d.traits.pick), d.traits, now);
        Retrait(k, f, t, Some(mood));
      }
      UpdateFirework(k, f, fr, now, trig, d.noise, d.spawn);
    }

    /**
     * `doAnimation(frame_ratio)`: every live firework, then every dying
     * one, goes through `AnimateAt`; the looks that result are those
     * `AnimatedAll` describes.
     */
    method DoAnimation(fr: real, now: int, trig: Trig, ds: nat -> FrameDraws)
      requires Valid()
      modifies this, Repr
      ensures Valid() && fresh(Repr - old(Repr))
      ensures fireworks == old(fireworks) && dyingFireworks == old(dyingFireworks) && Settings() == old(Settings())
      ensures Looks(All()) == AnimatedAll(old(Looks(All())), |dyingFireworks|, mood, fr, ds)
    {
      ghost var l0 := Looks(All());
      ghost var goal := AnimatedAll(l0, |dyingFireworks|, mood, fr, ds);
      AnimateRange(|dyingFireworks|, |All()|, fr, now, trig, ds);
      AnimateRange(0, |dyingFireworks|, fr, now, trig, ds);
      assert Looks(All()) == goal;
    }

    /** One loop of `doAnimation`: the fireworks from `lo` up to `hi` in `All()`. */
    method AnimateRange(lo: nat, hi: nat, fr: real, now: int, trig: Trig, ds: nat -> FrameDraws)
      requires Valid() && lo <= hi <= |All()|
      modifies this, Repr
      ensures Valid() && fresh(Repr - old(Repr))
      ensures fireworks == old(fireworks) && dyingFireworks == old(dyingFireworks) && Settings() == old(Settings())
      ensures forall j :: 0 <= j < |All()| ==>
        LookOf(All()[j]) == if lo <= j < hi then Animated(old(LookOf(All()[j])), j >= |dyingFireworks|, mood, fr, ds(j))
                            else old(LookOf(All()[j]))
    {
      ghost var l0 := Looks(All());
      var i := lo;
      while i < hi
        invariant lo <= i <= hi
        invariant Valid() && fresh(Repr - old(Repr))
        invariant fireworks == old(fireworks) && dyingFireworks == old(dyingFireworks) && Settings() == old(Settings())
        invariant forall j :: 0 <= j < |All()| ==>
          LookOf(All()[j]) == if lo <= j < i then Animated(l0[j], j >= |dyingFireworks|, mood, fr, ds(j)) else l0[j]
      {
        AnimateAt(i, fr, now, trig, ds(i));
        i := i + 1;
      }
    }

    /** Discards the oldest dying firework. */
    method Discard()
      requires Valid() && |dyingFireworks| > 0
      modifies this
      ensures Valid() && Repr == old(Repr)
      ensures dyingFireworks == old(dyingFireworks)[1..] && fireworks == old(fireworks) && Settings() == old(Settings())
    {
      ghost var fs := All();
      dyingFireworks := dyingFireworks[1..];
      assert All() == fs[1..];
      FleetTail(fs, Owned());
    }

    /**
     * The loop at the end of `doDrawing`: dying fireworks are shifted off
     * the front of their list while the front one is empty.
     */
    method PurgeFaded()
      requires Valid()
      modifies this
      ensures Valid() && Repr == old(Repr)
      ensures fireworks == old(fireworks) && Settings() == old(Settings())
      ensures PurgedFront(old(dyingFireworks), old(Emptiness(dyingFireworks)), dyingFireworks)
    {
      ghost var d0, e0 := dyingFireworks, Emptiness(dyingFireworks);
      while |dyingFireworks| > 0 && dyingFireworks[0].IsEmpty()
        invariant Valid() && Repr == old(Repr)
        invariant fireworks == old(fireworks) && Settings() == old(Settings())
        invariant |dyingFireworks| <= |d0| && dyingFireworks == d0[|d0| - |dyingFireworks|..]
        invariant forall i :: 0 <= i < |d0| - |dyingFireworks| ==> e0[i]
        decreases |dyingFireworks|
      {
        assert dyingFireworks[0] == d0[|d0| - |dyingFireworks|];
        Discard();
      }
      if |dyingFireworks| > 0 {
        assert dyingFireworks[0] == d0[|d0| - |dyingFireworks|];
      }
    }

    /**
     * `doDrawing()` less the drawing itself: the canvas takes the
     * container's size, the cap follows the area, and faded dying
     * fireworks are purged from the front of their list.
     */
    method DoDrawing(width: int, height: int)
      requires Valid() && width > 0 && height > 0
      modifies this
      ensures Valid() && Repr == old(Repr)
      ensures this.width == width && this.height == height && maxFireworks == MaxFireworksFor(width, height)
      ensures fireworks == old(fireworks) && mood == old(mood) && lastFireworkTime == old(lastFireworkTime)
      ensures PurgedFront(old(dyingFireworks), old(Emptiness(dyingFireworks)), dyingFireworks)
    {
      PurgeFaded();
      this.width, this.height, maxFireworks := width, height, MaxFireworksFor(width, height);
    }

    /**
     * The start of a loop iteration at `now`: the frame ratio is measured
     * against the previous animation frame, both counters are reset after
     * a stall, and the frame is counted.
     */
    method BeginFrame(now: int) returns (fr: real)
      requires Valid()
      modifies animationCounter, drawingCounter
      ensures Valid()
      ensures var delta := Delta(old(animationCounter.depth), old(animationCounter.lastTime), now);
        && fr == FrameRatio(delta)
        && animationCounter.lastTime == Some(now)
        && (Stalled(delta, old(animationCounter.depth), old(animationCounter.averageInterval)) ==>
              animationCounter.frameTimes == [now] && drawingCounter.Initial())
        && (!Stalled(delta, old(animationCounter.depth), old(animationCounter.averageInterval)) ==>
              animationCounter.frameTimes ==
                (if old(animationCounter.full) then old(animationCounter.frameTimes)[1..] else old(animationCounter.frameTimes)) + [now]
              && unchanged(drawingCounter))
    {
      var delta := Delta(animationCounter.depth, animationCounter.lastTime, now);
      fr := FrameRatio(delta);
      if Stalled(delta, animationCounter.depth, animationCounter.averageInterval) {
        animationCounter.Reset();
        drawingCounter.Reset();
      }
      animationCounter.Push(now);
    }

    /**
     * The drawing half of a loop iteration at `now`, with the draw rate
     * measured first: the draw is skipped when `SkipDraw` says so;
     * otherwise the frame is counted and drawn on a canvas of the
     * container's current size.
     */
    method DrawStep(dropped: bool, now: int, width: int, height: int) returns (skipped: bool, rate: Num)
      requires Valid() && width > 0 && height > 0
      modifies this, drawingCounter
      ensures Valid() && Repr == old(Repr)
      ensures rate == old(drawingCounter.Test(now))
      ensures skipped == SkipDraw(dropped, rate, animationCounter.frameRate)
      ensures dropped ==> !skipped
      ensures skipped ==> unchanged(this, drawingCounter)
      ensures !skipped ==>
        && drawingCounter.lastTime == Some(now)
        && drawingCounter.frameTimes ==
             (if old(drawingCounter.full) then old(drawingCounter.frameTimes)[1..] else old(drawingCounter.frameTimes)) + [now]
        && drawingCounter.depth == (if old(drawingCounter.full) then old(drawingCounter.depth) else old(drawingCounter.depth) + 1)
        && (drawingCounter.full <==> drawingCounter.depth == CounterDepth)
        && (!old(drawingCounter.full) && old(drawingCounter.depth) > 0 ==> drawingCounter.frameRate == rate)
        && this.width == width && this.height == height && maxFireworks == MaxFireworksFor(width, height)
        && PurgedFront(old(dyingFireworks), old(Emptiness(dyingFireworks)), dyingFireworks)
      ensures fireworks == old(fireworks) && mood == old(mood) && lastFireworkTime == old(lastFireworkTime)
      ensures unchanged(animationCounter)
    {
      rate := drawingCounter.Test(now);
      skipped := SkipDraw(dropped, rate, animationCounter.frameRate);
      if !skipped {
        drawingCounter.Push(now);
        DoDrawing(width, height);
      }
    }

    /**
     * The governor at the end of a loop iteration at `now`, given the draw
     * rate measured before drawing: once the drawing counter is full and
     * five seconds have passed since the last change, the guarded
     * governor's decision is carried out. The population only grows while
     * it is under the cap.
     */
    method Govern(now: int, rate: Num, d: TraitDraws, ux: Unit, uy: Unit, ud: Unit) returns (c: Change)
      requires Valid()
      modifies this, Repr
      ensures Valid() && fresh(Repr - old(Repr))
      ensures c == if old(drawingCounter.full) && now > old(lastFireworkTime) + FireworkChangeInterval
                   then GovernorGuarded(|old(fireworks)|, |old(dyingFireworks)|, Cap(maxFireworks, mood.maxFireworks), rate)
                   else Keep
      ensures c == Keep ==>
        fireworks == old(fireworks) && dyingFireworks == old(dyingFireworks) && lastFireworkTime == old(lastFireworkTime)
      ensures c == Drop ==>
        && fireworks == old(fireworks)[1..] && dyingFireworks == old(dyingFireworks) + [old(fireworks)[0]]
        && lastFireworkTime == now
      ensures c == Add ==>
        && |fireworks| == |old(fireworks)| + 1 && fireworks[..|old(fireworks)|] == old(fireworks)
        && dyingFireworks == old(dyingFireworks) && lastFireworkTime == now
      ensures (width, height, maxFireworks, mood) == old((width, height, maxFireworks, mood))
      ensures |All()| <= |old(All())| || |All()| <= Cap(maxFireworks, mood.maxFireworks)
      ensures unchanged(animationCounter, drawingCounter)
      ensures c != Drop ==> unchanged(old(Repr) - {this})
      ensures c == Drop ==> unchanged(old(Repr) - {this, old(fireworks)[0]})
      ensures c == Drop ==> var f := old(fireworks)[0];
        && fresh(f.traits) && f.traits.profile == DeadDuckProfile && f.mood == old(f.mood)
        && f.Fields() == old(f.Fields()) && f.particles == old(f.particles) && f.deathRow == old(f.deathRow)
      ensures c == Add ==> var f := fireworks[|fireworks| - 1];
        && fresh(f) && fresh(f.traits) && f.mood == Some(mood) && f.IsEmpty()
        && f.traits.profile.kind == PickKind(mood, d.pick)
        && (f.x, f.y, f.direction) == Spot(width, height, ux, uy, ud)
    {
      var cap := Cap(maxFireworks, mood.maxFireworks);
      c := if drawingCounter.full && now > lastFireworkTime + FireworkChangeInterval
           then GovernorGuarded(|fireworks|, |dyingFireworks|, cap, rate)
           else Keep;
      GovernorRespectsCap(|fireworks|, |dyingFireworks|, cap, rate);
      if c == Drop {
        assert All()[|dyingFireworks|] == fireworks[0];
      }
      CarryOut(c, now, d, ux, uy, ud);
    }

    /** Carries out the governor's decision `c` at `now`: adds, drops, or leaves the population as it is. */
    method CarryOut(c: Change, now: int, d: TraitDraws, ux: Unit, uy: Unit, ud: Unit)
      requires Valid() && (c == Drop ==> |fireworks| > 0)
      modifies this, if c == Drop then {fireworks[0]} else {}
      ensures Valid() && fresh(Repr - old(Repr))
      ensures c == Keep ==>
        fireworks == old(fireworks) && dyingFireworks == old(dyingFireworks) && lastFireworkTime == old(lastFireworkTime)
      ensures c == Drop ==>
        && fireworks == old(fireworks)[1..] && dyingFireworks == old(dyingFireworks) + [old(fireworks)[0]]
        && lastFireworkTime == now
      ensures c == Add ==>
        && |fireworks| == |old(fireworks)| + 1 && fireworks[..|old(fireworks)|] == old(fireworks)
        && dyingFireworks == old(dyingFireworks) && lastFireworkTime == now
      ensures (width, height, maxFireworks, mood) == old((width, height, maxFireworks, mood))
      ensures c == Drop ==> var f := old(fireworks)[0];
        && fresh(f.traits) && f.traits.profile == DeadDuckProfile && f.mood == old(f.mood)
        && f.Fields() == old(f.Fields()) && f.particles == old(f.particles) && f.deathRow == old(f.deathRow)
      ensures c == Add ==> var f := fireworks[|fireworks| - 1];
        && fresh(f) && fresh(f.traits) && f.mood == Some(mood) && f.IsEmpty()
        && f.traits.profile.kind == PickKind(mood, d.pick)
        && (f.x, f.y, f.direction) == Spot(width, height, ux, uy, ud)
      ensures c != Drop ==> unchanged(old(Repr) - {this})
      ensures c == Drop ==> unchanged(old(Repr) - {this, old(fireworks)[0]})
    {
      if c == Drop {
        DropFirework(now);
      } else if c == Add {
        AddFirework(d, ux, uy, ud, now);
      }
    }

    /**
     * One iteration of `loop()`: `now` is read at the start of the frame
     * and `later` after the animation; `dropped` says whether the previous
     * frame skipped its draw, and the result whether this one did.
     */
    method Frame(dropped: bool, now: int, later: int, width: int, height: int, trig: Trig,
                 ds: nat -> FrameDraws, d: TraitDraws, ux: Unit, uy: Unit, ud: Unit) returns (skipped: bool)
      requires Valid() && width > 0 && height > 0
      modifies this, Repr
      ensures Valid() && fresh(Repr - old(Repr))
      ensures dropped ==> !skipped
    {
      var fr := BeginFrame(now);
      DoAnimation(fr, now, trig, ds);
      var rate;
      skipped, rate := DrawStep(dropped, later, width, height);
      var _ := Govern(later, rate, d, ux, uy, ud);
    }

    /** Moves the oldest live firework to the back of the dying list; the change time becomes `now`. */
    method Shift(now: int)
      requires Valid() && |fireworks| > 0
      modifies this
      ensures Valid() && Repr == old(Repr) && All() == old(All())
      ensures fireworks == old(fireworks)[1..] && dyingFireworks == old(dyingFireworks) + [old(fireworks)[0]]
      ensures lastFireworkTime == now && (width, height, maxFireworks, mood) == old((width, height, maxFireworks, mood))
    {
      ghost var fs := All();
      dyingFireworks, fireworks := dyingFireworks + [fireworks[0]], fireworks[1..];
      lastFireworkTime := now;
      assert All() == fs;
    }
  }
}
