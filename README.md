# i-feel fireworks: a verified model of the particle engine

This project models the core of *i-feel*, a browser "mood fireworks" display,
in Dafny, and proves properties of that model. It covers three parts.

- **The particle and firework engine and the display's frame loop** (`fireworks.js`).
  - A `Firework` keeps three FIFO lists of pooled particle objects: active
    `particles`, the fading `death_row`, and the `recycling_bin` pool, which
    holds at most 100.
  - Every `update` moves the firework and lets its traits steer it. It then
    spawns particles from the pool, trims the oldest to death row, ages both
    lists, and retires faded or excess particles into the pool.
  - `draw` decides which sprites a particle produces, including the copies
    across the canvas edges.
  - The `FireworksDisplay` keeps a live list and a dying list of fireworks.
  - Each iteration of its loop does four things:
    - it measures the frame ratio and resets the counters after a stall;
    - it changes the traits of live fireworks at random, weighted by the mood's stability;
    - it skips a draw when drawing is fast and animation lags, but never twice in a row;
    - every five seconds a governor adds or drops a firework against a population cap.
- **Helpers** (`utils.js`):
  - truncated-remainder `wrap`, the index behind `choose`;
  - the `FrameCounter` sliding window of frame times;
  - `Color.fromHex` with its 32-bit shifts, and the colour copy-setters.
- **The trait catalogue** (`traits.js`):
  - the values every trait class sets, and the base `applyToFirework` with its `adjust` smoothing step;
  - the round-robin start angles of `newParticleArgs`;
  - the time-driven pulse overrides of `Virus`, `Ring`, `RedMist`, `GreenBlob` and `Bawble`;
  - the inert `DeadDuck` traits a dropped firework receives.

Every `Math.random()`, `normal()` and `performance.now()` result is a
parameter. `performance.now()` is read as integer milliseconds. `Math.cos`
and `Math.sin` are the two functions of a `Trig` parameter. JavaScript
numbers are modelled as exact reals. The values `undefined` and `+Infinity`
that the rate estimator can produce are modelled as a `Num` datatype.

| file | module | models |
|---|---|---|
| `utils.dfy` | `Utils` | `wrap`, `choose`, `random`, JavaScript `%` |
| `frame_counter.dfy` | `FrameCounting` | `FrameCounter` (a class) |
| `color.dfy` | `Colors` | `Color`, `fromHex`, `parseInt(_, 16)`, ToInt32 |
| `traits.dfy` | `Traits` | the catalogue, pulses, `adjust`, `applyToFirework`, `newParticleArgs` |
| `fireworks.dfy` | `Fireworks` | `Particle`, `Firework` (classes) |
| `display.dfy` | `Display` | `FireworksDisplay` (a class) and its loop decisions |

Three points of the code are easy to misread, and the model follows the code
as written:

- `wrap(i, n)` computes `(i % n) + n` for a negative `i`, so its result lies
  in (0, n] there, not in [0, n): `wrap(-10, 10)` is 10 (`Utils.Wrap`,
  `Utils.WrapNegativeExamples`).
- `draw` returns the number of particles it walked, including those of age 0
  that paint nothing (`Fireworks.Firework.Draw`).
- `update` spawns up to `floor(number_of_particles)`, which may exceed
  `max_particles`, and only then trims the excess onto death row
  (`Fireworks.Firework.Update`).

## Model

| member | source | states |
|---|---|---|
| Utils.Rem | utils.js:39 | JavaScript `%` for a positive modulus: the remainder has the dividend's sign and lies within one modulus of 0 |
| Utils.RemPeriodic | utils.js:39 | adding one modulus to a non-negative dividend leaves the remainder unchanged |
| Utils.IntRem | traits.js:155 | integer `%` as the pulses use it: equal to the mathematical remainder for a non-negative dividend, in (-n, 0] for a negative one |
| Utils.Wrap | utils.js:37-40 | the result lies in [0, n) for a non-negative argument and in (0, n] for a negative one |
| Utils.WrapCongruent | utils.js:37-40 | wrapping moves a point by a whole number of periods |
| Utils.WrapInRange | utils.js:37-40 | a value already in [0, n) is returned unchanged |
| Utils.WrapNegativeExamples | utils.js:37-40 | `wrap(-1, 10) = 9`, while `wrap(-10, 10) = 10`, not 0 |
| Utils.Uniform | utils.js:22-25 | `random(min, max)` lies between the bounds in either order, and never at the upper one when they differ |
| Utils.ChooseIndex | utils.js:32-35 | the index `choose` reads is valid for every non-empty list; for an empty list it is -1 or 0, out of range |
| Utils.Choose | utils.js:32-35 | `choose` yields a value exactly when the list is non-empty, and that value is an element of the list |
| Utils.ChooseReachesAll | utils.js:32-35 | every element of a non-empty list is chosen by some draw |
| FrameCounting.RateFor | utils.js:66-67 | the frame rate times the average interval is 1000; a zero interval gives +Infinity |
| FrameCounting.ProjectedIsPushedRate | utils.js:71-76 | `test`'s formula `1000 / (t - first) * depth` is the rate of the average over `depth` intervals |
| FrameCounting.FrameCounter.constructor | utils.js:45-54 | empty window, depth 0, not full, last time, average and rate undefined, with the given maximum depth |
| FrameCounting.FrameCounter.Push | utils.js:56-69 | when full, the oldest time is evicted before the new one is appended; otherwise depth grows by one. `full` holds exactly when depth reaches the maximum, and the depth never exceeds it. The last time becomes the pushed time. Average and rate follow the window (`Valid`). A first push leaves them undefined. A push into a non-full window reports the rate `test` predicted |
| FrameCounting.FrameCounter.Test | utils.js:71-76 | changes nothing; undefined exactly when the window is empty, otherwise the rate for `(t - first) / depth`, over `depth` rather than `depth - 1` intervals |
| FrameCounting.FrameCounter.Reset | utils.js:78-86 | restores exactly the constructor's state |
| FrameCounting.EvenSpacing | utils.js:63-67 | frames 25 ms apart report 40 frames per second |
| Colors.Red | utils.js:122-125 | a copy with only the red channel replaced |
| Colors.Green | utils.js:127-130 | a copy with only the green channel replaced |
| Colors.Blue | utils.js:132-135 | a copy with only the blue channel replaced |
| Colors.Alpha | utils.js:137-140 | a copy with only the alpha replaced |
| Colors.SettersKeepUnchanged | utils.js:122-140 | setting a channel to its own value gives back the same colour |
| Colors.SkipSpaceSpec | utils.js:96 | `parseInt` skips exactly the leading white space |
| Colors.HexRunSpec | utils.js:96 | `parseInt` reads the longest prefix of hex digits, which cannot be extended |
| Colors.ParseAllHex | utils.js:96 | a string of hex digits parses to its value |
| Colors.ParseInt16 | utils.js:96 | an empty string, or one whose first character is no white space, sign or hex digit, parses to NaN |
| Colors.ToInt32 | utils.js:100-104 | the 32-bit signed view the shift operators take: in [-2^31, 2^31) and congruent modulo 2^32 |
| Colors.ToUint32 | utils.js:104 | the unsigned 32-bit view: in [0, 2^32) and congruent modulo 2^32 |
| Colors.StripHash | utils.js:94-95 | exactly one leading `#` is removed |
| Colors.FromHex | utils.js:92-107 | fails with "Unrecognised hex color" exactly when the length after the `#` is not 3, 6 or 8 |
| Colors.FromHexUnsigned | utils.js:103-104 | the corrected reading fails on exactly the same inputs, with the same message |
| Colors.RoundTrip3 | utils.js:99-100 | `#rgb` reads back as three nibbles, each times 17, with alpha 1 |
| Colors.RoundTrip6 | utils.js:101-102 | `#rrggbb` reads back as the three bytes it spells, with alpha 1 |
| Colors.RoundTrip8 | utils.js:103-104 | `#rrggbbaa` with a red byte below 0x80 reads back as written, alpha being the low byte / 255 |
| Colors.HighRedNegative | utils.js:103-104 | as written, a red byte of 0x80 or more is read as that byte minus 256 |
| Colors.HalfRedExample | utils.js:103-104 | `#ff000080` is read with red -1 |
| Colors.RoundTrip8Unsigned | utils.js:103-104 | with the unsigned shift every `#rrggbbaa` reads back as written |
| Colors.UnsignedAgreesElsewhere | utils.js:92-107 | the corrected reading differs from the written one only for 8 digits |
| Traits.Base | traits.js:55-77 | the `FireworkTraits` constructor's values are well shaped |
| Traits.FlameTraits | traits.js:106-120 | `Flame`'s values are well shaped, with coefficient lists of at most three |
| Traits.BurstTraits | traits.js:122-137 | `Burst`'s values are well shaped |
| Traits.VirusTraits | traits.js:139-152 | `Virus`'s values are well shaped |
| Traits.RingTraits | traits.js:161-179 | `Ring`'s values are well shaped |
| Traits.BlackDeathTraits | traits.js:189-197 | `BlackDeath`'s values are well shaped |
| Traits.BlackHoleTraits | traits.js:199-207 | `BlackHole`'s values are well shaped |
| Traits.SnowTraits | traits.js:209-222 | `Snow`'s values are well shaped |
| Traits.WhiteHoleTraits | traits.js:224-236 | `WhiteHole`'s values are well shaped |
| Traits.SwarmTraits | traits.js:238-253 | `Swarm`'s values are well shaped |
| Traits.CracklerTraits | traits.js:255-271 | `Crackler`'s values are well shaped |
| Traits.StreakerTraits | traits.js:273-288 | `Streaker`'s values are well shaped |
| Traits.ExplosionTraits | traits.js:290-300 | `Explosion`'s values are well shaped |
| Traits.RoseTraits | traits.js:302-319 | `Rose`'s values are well shaped |
| Traits.GalaxyTraits | traits.js:321-336 | `Galaxy`'s values are well shaped |
| Traits.StarsTraits | traits.js:338-348 | `Stars`'s values are well shaped |
| Traits.RedMistTraits | traits.js:350-368 | `RedMist`'s values are well shaped, with a positive flash period |
| Traits.RedFistTraits | traits.js:376-390 | `RedFist`'s values are well shaped |
| Traits.RedPissedTraits | traits.js:392-402 | `RedPissed`'s values are well shaped |
| Traits.GreenBlobTraits | traits.js:404-423 | `GreenBlob`'s values are well shaped |
| Traits.BawbleTraits | traits.js:432-451 | `Bawble`'s values are well shaped |
| Traits.DeadDuckTraits | traits.js:460-468 | `DeadDuck`'s values are well shaped |
| Traits.Catalogue | traits.js:106-468 | every trait class is of its own kind and well shaped. Its force lists hold at most three coefficients, `min_particles <= max_particles`, and the lists it chooses from are non-empty: the shapes the force `switch` and the trim loop handle |
| Traits.DeadDuckShape | traits.js:460-468 | `DeadDuck` keeps no particles, adds no noise, does not conform, and creates nothing |
| Traits.Pulsed | traits.js:153-457 | an override changes only the centre coefficients and the brightness; classes without one keep their values |
| Traits.IntegerPulsesPeriodic | traits.js:153-457 | the `Virus`, `Ring`, `Bawble` and `GreenBlob` pulses repeat every 900, 2000, 1000 and 500 ms |
| Traits.MistPeriodic | traits.js:369-373 | the `RedMist` flash repeats every `rate` ms |
| Traits.PulseLevels | traits.js:153-457 | each pulse takes exactly the values its override lists, in both directions: `Virus` 0 below 150, 0.02 below 300 and 0.01 from 300; `Ring` brightness 1 below 300 and 0.5 from 300, pull -13.5 below 100, -14.4 strictly between 350 and 550 and -15 elsewhere; `Bawble` 0.045 below 150 and 0.05 from 150; `GreenBlob` -300 above 350 and -150 up to 350 |
| Traits.VirusLevel | traits.js:155-156 | the level is 0, 0.02 or 0.01 |
| Traits.RingPull | traits.js:182-183 | the pull is -13.5, -14.4 or -15 |
| Traits.RingBrightness | traits.js:184 | the brightness is 1 or 0.5 |
| Traits.MistBrightness | traits.js:371 | the brightness is the base or the peak; with a period of at most 250 ms, or before time 0, it is always the base |
| Traits.BlobPull | traits.js:426-427 | the pull is -300 or -150, and -150 for the first 350 ms after the traits are made |
| Traits.BawbleLevel | traits.js:454-455 | the level is 0.045 or 0.05 |
| Traits.Adjust | traits.js:79-82 | a frame ratio of 0 leaves the value alone, and so does a value already at its target when there is no noise |
| Traits.AdjustConverges | traits.js:79-82 | without noise, and with a step of at most one, `adjust` moves toward the target and never overshoots |
| Traits.AdjustStill | traits.js:79-82 | with no conformity and no randomness `adjust` returns the current value |
| Traits.Applied | traits.js:84-91 | the particle target becomes `max(min_particles, n + creation_rate * fr)`: never below `min_particles` and never below the grown count |
| Traits.DirectionSteady | traits.js:88 | with no randomness the firework's direction does not drift |
| Traits.DeadDuckHolds | traits.js:84-91 | under `DeadDuck` the speed, direction, rotation and brightness are kept, and the target becomes `max(0, n)` |
| Traits.ArgsFor | traits.js:93-104 | the pattern, spin and drive come from the traits' lists. With start angles, the direction is the `i mod len`-th angle; without, it is a draw in [0, 2π) |
| Traits.NextThetaIndex | traits.js:96-97 | the index advances by one per call exactly when there are start angles |
| Traits.ThetaCycles | traits.js:96-97 | a full turn of calls comes back to the same start angle and arguments |
| Traits.Traits.constructor | traits.js:55-77 | a new traits object holds its class's catalogue values and a start-angle index of 0 |
| Traits.Traits.ApplyToFirework | traits.js:84-91 | the override's pulse is applied to the traits' own values first. The firework's five steering fields then get the base step computed from the pulsed values. The start-angle index is unchanged |
| Traits.Traits.NewParticleArgs | traits.js:93-104 | returns the arguments for the current index and advances it round-robin; the values are unchanged |
| Fireworks.Particle.constructor | fireworks.js:137 | a new particle starts with age 0 |
| Fireworks.Particle.Initialize | fireworks.js:37-48 | the new state depends on the arguments alone: pattern, position, direction, spin and drive from them, speeds and age 0. A recycled particle carries nothing over |
| Fireworks.Particle.Mature | fireworks.js:149-153 | the particle drifts by its speed and its age becomes `min(age + m, 100)` |
| Fireworks.Particle.Decay | fireworks.js:156-160 | the particle drifts by its speed and its age becomes `max(age - d, 0)` |
| Fireworks.AgeSteps | fireworks.js:147-160 | maturing never passes 100 and decaying never goes below 0. With a non-negative step, an age in [0, 100] stays there and moves the right way |
| Fireworks.AgesStayInRange | fireworks.js:147-160 | ages in [0, 100] stay there through the maturing and decaying loops |
| Fireworks.TrimCount | fireworks.js:141-145 | the trim moves no more than there are, and leaves at most `max_particles` |
| Fireworks.RetireCount | fireworks.js:161-167 | retirement takes at most the whole of death row |
| Fireworks.RetireStops | fireworks.js:161-167 | after retirement, death row is empty, or its head is visible and it is within its limit; every retired particle was faded or in excess |
| Fireworks.ActiveCapped | fireworks.js:141-145 | after an update `min(count, max_particles)` particles are active |
| Fireworks.DeathRowSettled | fireworks.js:141-167 | after an update death row is empty, or its head has a non-zero age and its length is at most `max_death_row` |
| Fireworks.AgesKept | fireworks.js:141-167 | for a non-negative frame ratio, ages in [0, 100] stay there through an update, for active and dying particles |
| Fireworks.DeadDuckDrains | traits.js:460-468 | under `DeadDuck` an update leaves no particle active: every one joins the back of death row in order |
| Fireworks.Recycled | fireworks.js:161-167 | the pool never exceeds 100; it keeps the oldest particles offered, and those offered while it is full are discarded |
| Fireworks.RecycledStep | fireworks.js:164-166 | one more retired particle joins the pool exactly when the pool has room |
| Fireworks.Copies | fireworks.js:257-267 | 1 sprite when neither offset applies, 2 when one does, 4 when both do; the first is always the main sprite |
| Fireworks.EdgeCopy | fireworks.js:253-258 | a second copy is made exactly when the sprite sticks out past an edge, one extent away on the far side |
| Fireworks.BlitCount | fireworks.js:250-268 | a particle gives 0, 1, 2 or 4 sprites, and none exactly when its age is not positive |
| Fireworks.AllBlitsBound | fireworks.js:248-269 | a firework emits at most four sprites per particle, and none when every age is 0 |
| Fireworks.DrawParticle | fireworks.js:250-268 | one loop turn of `draw` emits exactly the sprites `ParticleBlits` specifies |
| Fireworks.Moved | fireworks.js:128-130 | after moving, the position lies on the canvas and the angle within one turn; no other field changes |
| Fireworks.Firework.constructor | fireworks.js:103-117 | empty lists, the given traits and position, the angle equal to the direction, zero speeds and target, brightness 1 |
| Fireworks.Firework.SetTraits | fireworks.js:452-453 | the firework takes the new traits and mood and keeps every other field and all its particles |
| Fireworks.Firework.Spawn | fireworks.js:134-140 | particles are taken from the front of the pool before new ones are made. Each is initialized with the traits' next arguments and appended. The loop stops at `floor(number_of_particles)`. Existing particles and death row are untouched |
| Fireworks.Firework.SpawnOne | fireworks.js:136-140 | one turn: the pool's front, or a new particle, is appended, and the start-angle index advances |
| Fireworks.Firework.TakeFromPool | fireworks.js:137 | the pool's front, or a new particle when it is empty, in none of the lists |
| Fireworks.Firework.Update | fireworks.js:124-168 | the new fields are those of moving, steering and one decrement per trimmed particle. The traits pulse. The particle values are the old ones plus the spawned ones, trimmed, aged and retired. At most `max_particles` stay active, and death row settles as `DeathRowSettled` says. The particle objects move as `Turnover` says: spawned ones come from the pool's front first, the trimmed ones join death row, and the retired head of death row is offered to the rest of the pool |
| Fireworks.Firework.Move | fireworks.js:128-130 | the fields become those `Moved` gives; nothing else changes |
| Fireworks.Firework.SteerBy | fireworks.js:132 | the traits pulse and the steering fields take the values `Applied` computes |
| Fireworks.Firework.UpdateParticles | fireworks.js:134-167 | the values after spawning, trimming, ageing and retiring; only the target count changes among the fields, down by one per trimmed particle. The objects, the pool included, move as `Turnover` says |
| Fireworks.Firework.SpawnAndTrim | fireworks.js:134-145 | as many particles are spawned as `floor(number_of_particles)` exceeds the active count; the first ones are the pool's front, which the pool loses. The oldest of old-plus-spawned beyond the maximum move, in order, to death row |
| Fireworks.Firework.AgeAndRetire | fireworks.js:147-167 | values age as `Aged` says; the active list keeps its objects, and the head of death row that retirement counts on the decayed ages leaves it and goes to the pool as `Recycled` says |
| Fireworks.Retiring | fireworks.js:161-167 | the number retirement takes is at most the length of the trimmed death row, and what stays on death row is the decayed row without that many at its head |
| Fireworks.Firework.IsEmpty | fireworks.js:119-122 | the definition: a firework is empty exactly when it holds no active and no dying particle. What it means is stated by `Fireworks.Firework.Draw` (`npd` is 0 exactly when the firework is empty) and by `Display.FireworksDisplay.PurgeFaded` (the longest empty prefix of the dying list is purged) |
| Fireworks.Firework.Trim | fireworks.js:141-145 | the oldest particles beyond `max_particles` move, in order, to the back of death row. The target count drops by exactly the number moved. Nothing is created or lost |
| Fireworks.Firework.MatureParticles | fireworks.js:147-153 | every active particle drifts and matures as `Matured` says; death row is untouched |
| Fireworks.Firework.DecayDeathRow | fireworks.js:154-160 | every dying particle drifts and fades as `Decayed` says; active ones are untouched |
| Fireworks.Firework.Retire | fireworks.js:161-167 | the faded or excess head of death row leaves oldest first; the pool becomes `Recycled` of what left |
| Fireworks.Firework.RetireHead | fireworks.js:164-166 | the head leaves death row and joins the pool only while it holds fewer than 100 |
| Fireworks.Firework.Draw | fireworks.js:242-272 | the sprites are those of the active then the dying particles, in order. It returns the number of particles walked, age-0 ones included, which is 0 exactly when the firework is empty |
| Display.Delta | fireworks.js:401 | with no frame counted the interval is the notional 50 ms, a whole frame; otherwise it is the time since the last frame |
| Display.Stalled | fireworks.js:403 | a gap over 500 ms is always a stall; with five frames or fewer, or no average, it is the only one; otherwise a gap over five average intervals also is |
| Display.SkipDraw | fireworks.js:413 | a skip needs the previous frame drawn and a finite animation rate below 40 fps; an undefined draw rate, or an undefined or infinite animation rate, never skips |
| Display.StabilityFor | fireworks.js:448 | the definition: the mood's stability for a firework already in the display's mood, 50 otherwise. What it means is stated by `Display.MutationThreshold` (traits change exactly for draws up to `fr / stability`) and `Display.AnimatedAllShape` (a firework already in the mood changes only for such a draw) |
| Display.Mutates | fireworks.js:449-450 | with a positive frame ratio, a stability no larger than it always changes traits; with a zero frame ratio only a negative stability and a positive draw do |
| Display.PickKind | fireworks.js:376 | the picked trait class is one of the mood's |
| Display.FrameRatio | fireworks.js:400-402 | the frame ratio is at most 1, is 1 exactly from 50 ms on, and is `delta / 50` below that |
| Display.FirstFrameWhole | fireworks.js:401 | with an empty counter the frame ratio is a whole frame |
| Display.NeverTwoSkips | fireworks.js:413-422 | after a skipped frame the next one is drawn |
| Display.UnmeasuredRateNotSlow | fireworks.js:413 | an undefined or infinite draw rate is never below 25 fps; with an infinite draw rate the skip depends on the animation rate alone |
| Display.MaxFireworksFor | fireworks.js:477 | `ceil(width * height / 90000)` |
| Display.Cap | fireworks.js:427 | the cap never exceeds the canvas's cap, nor the mood's when it has a non-zero one, and it is one of the two |
| Display.Governor | fireworks.js:429-439 | as written: drop exactly when over the cap, or when more than one firework is counted and drawing is below 25 fps. Otherwise add exactly when under the cap and drawing is above 30 fps |
| Display.GovernorDropsFromEmpty | fireworks.js:429-432 | the written governor decides to drop with no live firework left |
| Display.GovernorGuarded | fireworks.js:429-439 | a drop only with a live firework; otherwise the written decision |
| Display.GovernorRespectsCap | fireworks.js:429-439 | the guarded governor adds only below the cap, and drops whenever there are more than the cap and a live firework |
| Display.MutationThreshold | fireworks.js:448-450 | for a positive frame ratio and stability, traits change exactly for draws up to `fr / stability` |
| Display.Spot | fireworks.js:377-379 | a new firework starts in the middle half of the canvas with a direction in [0, 2π) |
| Display.AnimatedAll | fireworks.js:446-463 | each firework's look, meaning its mood and trait class, after one `doAnimation` |
| Display.AnimatedAllShape | fireworks.js:446-463 | dying fireworks never change traits. A live one keeps its look, or takes the display's mood and a class from that mood. One already in that mood changes only when its draw is at most `fr / stability` |
| Display.NewTraits | fireworks.js:452 | a fresh traits object of the picked class |
| Display.NewFirework | fireworks.js:376-381 | a fresh, empty firework carrying the display's mood, at the given spot |
| Display.Step | fireworks.js:456 | `update` keeps the firework's traits object, mood and trait class |
| Display.NewDeadDuck | fireworks.js:388 | fresh `DeadDuck` traits |
| Display.PurgedFrontUnique | fireworks.js:500-501 | the purge has one outcome, determined by which fireworks are empty |
| Display.PurgedFrontExtremes | fireworks.js:500-501 | a list with no empty firework is kept whole, and an all-empty list is emptied |
| Display.FireworksDisplay.constructor | fireworks.js:286-302 | the container's size, the cap for that area, empty counters, the given mood, and one live firework added at `now`. That firework is fresh, with fresh traits of a class picked from the mood, is empty, carries the mood and stands at the spot `Spot` gives |
| Display.FireworksDisplay.AddFirework | fireworks.js:373-383 | a fresh, empty firework joins the back of the live list. It has a class picked from the mood, that mood, and the spot `Spot` gives. The dying list is unchanged and the change time becomes `now` |
| Display.FireworksDisplay.DropFirework | fireworks.js:385-391 | the front live firework gets fresh `DeadDuck` traits and moves to the back of the dying list. It keeps its fields, mood and particles. The live list must be non-empty |
| Display.FireworksDisplay.Retrait | fireworks.js:452-453 | one firework takes new traits and a mood; no other firework's look changes |
| Display.FireworksDisplay.UpdateFirework | fireworks.js:456 | updating one firework keeps its look and every other firework's look |
| Display.FireworksDisplay.AnimateAt | fireworks.js:448-462 | one firework goes through the mutation rule (live ones only) and `update`; its look becomes the one `Animated` gives |
| Display.FireworksDisplay.DoAnimation | fireworks.js:444-464 | both lists are kept, and the looks become those `AnimatedAll` gives |
| Display.FireworksDisplay.AnimateRange | fireworks.js:446-463 | the fireworks in the range are animated; those outside it are not |
| Display.FireworksDisplay.Discard | fireworks.js:501 | the front dying firework is removed; nothing else changes |
| Display.FireworksDisplay.PurgeFaded | fireworks.js:500-501 | the dying list loses exactly its longest prefix of empty fireworks; an empty one behind a non-empty one stays |
| Display.FireworksDisplay.DoDrawing | fireworks.js:466-501 | the canvas takes the container's size, the cap follows the area, and faded fireworks leave the front of the dying list |
| Display.FireworksDisplay.BeginFrame | fireworks.js:400-409 | the frame ratio is measured against the previous animation frame. After a stall both counters restart from empty; otherwise the frame is pushed and the drawing counter is untouched |
| Display.FireworksDisplay.DrawStep | fireworks.js:411-422 | the draw rate is `test(now)` taken before drawing. The frame is skipped exactly when `SkipDraw` holds, and never after a skip. A skip changes nothing. A draw pushes `now` onto the drawing counter's window (dropping the oldest time when it was full), increments its depth until it is full at 20, takes the projected rate as the new rate while the window was filling, and runs `DoDrawing`. The animation counter is untouched |
| Display.FireworksDisplay.Govern | fireworks.js:424-440 | acts only when the drawing counter is full and 5000 ms have passed, with the guarded governor. It states the effect of each decision on both lists and the change time. On a drop, the dropped firework gets fresh `DeadDuck` traits and keeps its mood, fields and particles. On an add, the appended firework is fresh and empty, with fresh traits of a class picked from the mood, carries that mood and stands at the spot `Spot` gives. The population grows only while under the cap. Both counters are untouched; no object the display owned changes except on a drop, and then only the dropped firework |
| Display.FireworksDisplay.CarryOut | fireworks.js:429-438 | a drop moves the front live firework to the back of the dying list and gives it fresh `DeadDuck` traits, keeping its mood, fields and particles. An add appends a fresh, empty firework with fresh traits of a class picked from the mood, that mood, and the spot `Spot` gives. Either sets the change time. A keep changes nothing, and only the dropped firework changes among the objects the display owned |
| Display.FireworksDisplay.Frame | fireworks.js:398-441 | one iteration keeps the display valid and never skips two draws in a row |
| Display.FireworksDisplay.Shift | fireworks.js:387-390 | the front live firework moves to the back of the dying list, so the order of all fireworks is kept |

## Left out

- `Firework.recalculate` (the force laws, with square roots and divisions by squared distances) is not part of this model. It would change particle speeds between updates; the model's particles keep theirs.
- `Particle.createImage` and `Particle.draw` are not part of this model: canvas gradients and images. `draw` is modelled by the list of sprite positions and alphas it would paint. The scale factor is not modelled.
- The DOM and canvas glue of `FireworksDisplay` is not modelled. That covers canvas sizing, the stats text, `debugControl`, `changeMood` and the mood wheel with its mouse and touch handlers. The display's mood is therefore fixed after construction.
- `moods.js` (mood table and wheel) and `feel.js` (entry point) are not part of this model. A mood is an object with a stability, a list of trait classes and an optional cap.
- `random`, `normal`, `performance.now()`, `Math.cos` and `Math.sin` are parameters. Their distributions and values are not modelled.
- `Color.toString`: formatting of JavaScript numbers.
- Floating point: all arithmetic is on exact reals. NaN appears only where `parseInt` yields it and where a zero frame ratio divides the stability.
- `performance.now()` returns fractional milliseconds; the model uses integers.
- The source reads `performance.now()` afresh in each pulse override (traits.js:155, 182, 371, 426, 454), in the `GreenBlob` constructor (traits.js:421) and in `addFirework` and `dropFirework` (fireworks.js:382, 390). The model reads the clock once per phase: `now` for the whole animation and `later` for drawing and the governor. This is the case where those readings coincide; the microseconds that pass between them are not modelled.
- The infinite `loop` and its `requestAnimationFrame` await are modelled as one iteration, `Frame`. The caller carries `dropped_last_frame` from one iteration to the next.
- A zero-sized container is excluded: the display's invariant requires a positive width and height.
- Display.FireworksDisplay.DoAnimation: the random draws are indexed by a firework's position in the dying-then-live order. The source consumes them live fireworks first.
- Display.FireworksDisplay.AddFirework: states the trait class of the new traits, not their full catalogue values, which `Traits.Traits.constructor` states.
- Display.FireworksDisplay.AnimateAt: states the look (mood and trait class) and validity, not the particle-level effect of `update`, which `Fireworks.Firework.Update` states.
- Display.FireworksDisplay.UpdateFirework: states looks and validity only, for the same reason.
- Display.Step: states looks and validity only, for the same reason.
- Display.FireworksDisplay.constructor: does not promise that its two frame counters are fresh objects; it does promise this of its first firework and that firework's traits.
- Display.FireworksDisplay.Frame: states validity and the skip rule only; the effects of its four steps are stated by `BeginFrame`, `DoAnimation`, `DrawStep` and `Govern`.
- Display.FireworksDisplay.Govern: uses the guarded governor (see Findings), not the written one.
- Fireworks.Firework.Spawn: does not promise that newly made particles are fresh objects; `SpawnOne` states it per turn.
- Fireworks.Particle.constructor: states only the age; a blank particle's other fields are overwritten by `Initialize` before use.
- Colors.FromHex: measures the length of the string in Unicode scalar values, while JavaScript's `hex.length` counts UTF-16 code units. A string with a character outside the Basic Multilingual Plane, such as "#😀0", has length 3 in JavaScript, where `fromHex` returns black from NaN; the model fails it as length 2. The one caller passes literal hex colours.
- Colors.FromHex: `parseInt` is modelled for the inputs `fromHex` can see (white space, a sign, a `0x` prefix, hex digits). Precision loss for more than 13 digits cannot arise, because only 3, 6 and 8 digits are accepted.

## Findings

| source | as written | input that shows it | evidently intended | confidence | as-written member | corrected member |
|---|---|---|---|---|---|---|
| utils.js:103-104 | red is `n >> 24`, a signed shift of the 32-bit word | `#ff000080` gives red -1 instead of 255 | the unsigned shift `n >>> 24`, so that red is the top byte, in 0 to 255 like the other channels | high; not executed | Colors.HalfRedExample | Colors.RoundTrip8Unsigned |
| fireworks.js:429-432 | the drop test counts dying fireworks too, so it can pass with an empty live list. `dropFirework` then shifts `undefined` and assigning its `traits` throws | no live firework, two dying ones, a cap of 1 and a draw rate of 20 fps | drop only while a live firework exists | medium; not executed | Display.GovernorDropsFromEmpty | Display.GovernorRespectsCap |
