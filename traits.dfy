/**
 * traits.js: the catalogue of firework behaviours. A `Profile` holds the
 * values a `FireworkTraits` constructor sets; `Pulse` records which
 * subclass overrides `applyToFirework` with a time-dependent pulse, and the
 * class `Traits` holds the one field the source mutates besides them, the
 * round-robin start-angle index.
 */
module Traits {
  import opened Utils

  const LargeSize := 55
  const SmallSize := 25

  datatype Pattern = Pattern(color: string, size: int)

  const LargeBlue := Pattern("#0533ff", LargeSize)
  const SmallBlue := Pattern("#0533ff", SmallSize)
  const LargeCarnation := Pattern("#f78ad8", LargeSize)
  const SmallCarnation := Pattern("#f78ad8", SmallSize)
  const LargeCyan := Pattern("#50fdff", LargeSize)
  const SmallCyan := Pattern("#50fdff", SmallSize)
  const LargeGreen := Pattern("#7dfa2e", LargeSize)
  const SmallGreen := Pattern("#7dfa2e", SmallSize)
  const LargeMagenta := Pattern("#f540ff", LargeSize)
  const SmallMagenta := Pattern("#f540ff", SmallSize)
  const LargeOrange := Pattern("#f99300", LargeSize)
  const SmallOrange := Pattern("#f99300", SmallSize)
  const LargePurple := Pattern("#952193", LargeSize)
  const SmallPurple := Pattern("#952193", SmallSize)
  const LargeRed := Pattern("#f62400", LargeSize)
  const SmallRed := Pattern("#f62400", SmallSize)
  const LargeWhite := Pattern("#ffffff", LargeSize)
  const SmallWhite := Pattern("#ffffff", SmallSize)
  const LargeYellow := Pattern("#fffb00", LargeSize)
  const SmallYellow := Pattern("#fffb00", SmallSize)

  /** `Object.values(Patterns)`: every pattern, in declaration order. */
  const AllPatterns := [
    LargeBlue, SmallBlue, LargeCarnation, SmallCarnation, LargeCyan, SmallCyan,
    LargeGreen, SmallGreen, LargeMagenta, SmallMagenta, LargeOrange, SmallOrange,
    LargePurple, SmallPurple, LargeRed, SmallRed, LargeWhite, SmallWhite,
    LargeYellow, SmallYellow]

  /** The exported trait classes. */
  datatype Kind =
    | Flame | Burst | Virus | Ring | BlackDeath | BlackHole | Snow | WhiteHole
    | Swarm | Crackler | Streaker | Explosion | Rose | Galaxy | Stars
    | RedMist | RedFist | RedPissed | GreenBlob | Bawble | DeadDuck

  /** Which `applyToFirework` override runs before the shared one. */
  datatype Pulse =
    | Steady
    | VirusPulse
    | RingPulse
    | RedMistPulse(rate: real, baseBrightness: real, peakBrightness: real)
    | GreenBlobPulse(start: int)
    | BawblePulse

  datatype Profile = Profile(
    kind: Kind,
    pulse: Pulse,
    patterns: seq<Pattern>,
    minParticles: real,
    maxParticles: int,
    maxDeathRow: int,
    rotationalSpeed: real,
    speed: real,
    randomness: real,
    conformity: real,
    particleAttraction: seq<real>,
    centreAttraction: seq<real>,
    startDistance: seq<real>,
    startTheta: seq<real>,
    particleDrag: real,
    creationRate: real,
    maturationRate: real,
    decayRate: real,
    startSpin: seq<real>,
    startDrive: seq<real>,
    brightness: real)

  /**
   * The shapes the firework engine handles: force laws of at most three
   * coefficients, `min_particles <= max_particles`, pools to choose from that
   * are never empty, visible particle sizes, ages that move the right way,
   * and a positive pulse period.
   */
  predicate WellShaped(p: Profile)
  {
    && |p.particleAttraction| <= 3 && |p.centreAttraction| <= 3
    && 0.0 <= p.minParticles <= p.maxParticles as real
    && p.maxDeathRow >= 0
    && |p.patterns| > 0 && |p.startDistance| > 0
    && |p.startSpin| > 0 && |p.startDrive| > 0
    && (forall q :: q in p.patterns ==> q.size > 0)
    && p.maturationRate >= 0.0 && p.decayRate >= 0.0
    && (p.pulse.RedMistPulse? ==> p.pulse.rate > 0.0)
  }

  /** `choose(xs)` on a list that is known to be non-empty. */
  function Pick<T>(xs: seq<T>, u: Unit): (x: T)
    requires |xs| > 0
    ensures x in xs
  {
    Choose(xs, u).value
  }

  /** The values of the `FireworkTraits` constructor. */
  function Base(kind: Kind): (p: Profile)
    ensures p.kind == kind && WellShaped(p)
  {
    Profile(kind, Steady, AllPatterns, 0.0, 25, 100, 0.0, 0.0, 0.1, 0.1,
            [], [], [10.0], [], 0.1, 0.0, 1.0, 1.0, [0.0], [0.0], 1.0)
  }

  function SnowProfile(kind: Kind): Profile
  {
    Base(kind).(
      patterns := [LargeWhite, SmallWhite],
      centreAttraction := [-20.0],
      speed := 1.0,
      creationRate := 0.025,
      startDistance := [50.0, 100.0, 125.0, 150.0, 175.0, 200.0, 225.0, 250.0, 275.0, 300.0],
      startSpin := [-0.2, -0.1, 0.1, 0.2],
      startDrive := [0.05, 0.1, 0.15, 0.2])
  }

  /** The `RedMist` constructor; `rotation` and `rate` are its drawn values. */
  function RedMistProfile(kind: Kind, rotation: real, rate: real): Profile
  {
    Base(kind).(
      pulse := RedMistPulse(rate, 0.5, 0.75),
      maxParticles := 60,
      patterns := [SmallRed, LargeRed, LargeRed, LargePurple],
      startDistance := [100.0, 150.0, 200.0, 225.0, 250.0, 275.0, 300.0, 325.0, 350.0,
                        375.0, 400.0, 425.0, 450.0],
      creationRate := 0.5,
      startSpin := [-1.0, 1.0],
      speed := 1.0,
      conformity := 0.2,
      rotationalSpeed := rotation,
      decayRate := 2.0)
  }

  function FlameTraits(u1: Unit): (p: Profile)
    ensures p.kind == Flame && WellShaped(p)
  {
    Base(Flame).(patterns := [Pick([LargeMagenta, LargeOrange, LargeRed], u1)],
       speed := 2.0, particleAttraction := [5.0], centreAttraction := [-30.0, 0.0, -0.01],
       creationRate := 1.0, maturationRate := 5.0, decayRate := 10.0, randomness := 0.25)
  }

  function BurstTraits(): (p: Profile)
    ensures p.kind == Burst && WellShaped(p)
  {
    Base(Burst).(maxParticles := 50, speed := 2.0, centreAttraction := [-10.0], creationRate := 0.25,
       maturationRate := 5.0, startDistance := [1.0], startSpin := [-0.1, 0.1],
       startDrive := [0.1], conformity := 0.05)
  }

  function VirusTraits(u1: Unit, u2: Unit): (p: Profile)
    ensures p.kind == Virus && WellShaped(p)
  {
    Base(Virus).(pulse := VirusPulse, patterns := Pick([[LargeCyan], [LargeOrange]], u1),
       minParticles := 10.0, rotationalSpeed := 0.01, speed := 2.0,
       particleAttraction := [Pick([-1.0, -2.0, -3.0], u2)],
       centreAttraction := [0.0, 0.0, 0.01], creationRate := 0.05)
  }

  function RingTraits(): (p: Profile)
    ensures p.kind == Ring && WellShaped(p)
  {
    Base(Ring).(pulse := RingPulse, patterns := [LargeBlue], minParticles := 20.0, maxParticles := 24,
       rotationalSpeed := -0.02, speed := 1.5, particleAttraction := [-1.0],
       centreAttraction := [0.0, -10.0, 0.1], creationRate := 0.05, startDistance := [100.0],
       maturationRate := 2.0, decayRate := 2.0, conformity := 0.2)
  }

  function BlackDeathTraits(): (p: Profile)
    ensures p.kind == BlackDeath && WellShaped(p)
  {
    Base(BlackDeath).(maxParticles := 0, speed := 10.0)
  }

  function BlackHoleTraits(): (p: Profile)
    ensures p.kind == BlackHole && WellShaped(p)
  {
    Base(BlackHole).(maxParticles := 0, centreAttraction := [0.0, 1.0])
  }

  function SnowTraits(): (p: Profile)
    ensures p.kind == Snow && WellShaped(p)
  {
    SnowProfile(Snow)
  }

  function WhiteHoleTraits(): (p: Profile)
    ensures p.kind == WhiteHole && WellShaped(p)
  {
    SnowProfile(WhiteHole).(centreAttraction := [0.0, 2.0], rotationalSpeed := 0.05,
                       creationRate := 0.3, startDistance := [300.0],
                       maturationRate := 5.0, decayRate := 5.0)
  }

  function SwarmTraits(u1: Unit): (p: Profile)
    ensures p.kind == Swarm && WellShaped(p)
  {
    Base(Swarm).(patterns := [LargeOrange, LargeOrange, LargeOrange, LargeOrange,
                    LargeRed, LargeRed, LargeYellow, SmallBlue],
       centreAttraction := Pick([[-1000.0], [], [-1.0, 10.0]], u1),
       particleAttraction := [-10.0, 0.0, 0.001], speed := 5.0, creationRate := 0.2,
       startSpin := [-0.5, -0.25, 0.25, 0.5], startDrive := [1.0, 2.0, 3.0, 4.0, 5.0],
       randomness := 0.5)
  }

  function CracklerTraits(u1: Unit): (p: Profile)
    ensures p.kind == Crackler && WellShaped(p)
  {
    Base(Crackler).(patterns := [LargeWhite, SmallWhite, LargeCarnation, SmallCarnation],
       maxParticles := 100, rotationalSpeed := Pick([-0.005, -0.0025, 0.0025, 0.005], u1),
       speed := 1.0,
       startDistance := [50.0, 100.0, 150.0, 175.0, 200.0, 225.0, 250.0, 275.0, 300.0,
                         325.0, 350.0, 375.0, 400.0, 425.0, 450.0, 475.0, 500.0],
       creationRate := 2.0, maturationRate := 20.0, decayRate := 20.0,
       startDrive := [0.0, 0.05, 0.1])
  }

  function StreakerTraits(): (p: Profile)
    ensures p.kind == Streaker && WellShaped(p)
  {
    Base(Streaker).(minParticles := 25.0, maxParticles := 50, speed := 20.0, startDistance := [1.0],
       creationRate := 0.5, centreAttraction := [0.0, 0.0, 0.01], maturationRate := 5.0,
       decayRate := 10.0, startDrive := [0.0, 0.0, 0.0, 0.0, 0.1, 0.2])
  }

  function ExplosionTraits(): (p: Profile)
    ensures p.kind == Explosion && WellShaped(p)
  {
    Base(Explosion).(maxParticles := 0, speed := 1.0, centreAttraction := [0.0, -1.0], decayRate := 0.5)
  }

  function RoseTraits(): (p: Profile)
    ensures p.kind == Rose && WellShaped(p)
  {
    Base(Rose).(patterns := [LargeMagenta, LargeCarnation, LargeCarnation, LargeWhite, LargePurple],
       maxParticles := 50, creationRate := 1.0,
       startTheta := [0.0, PI * 0.4, PI * 0.8, PI * 1.2, PI * 1.6],
       startSpin := [-0.085], startDrive := [0.5], speed := 1.0, rotationalSpeed := 0.025,
       decayRate := 10.0, maturationRate := 5.0)
  }

  function GalaxyTraits(): (p: Profile)
    ensures p.kind == Galaxy && WellShaped(p)
  {
    Base(Galaxy).(patterns := [LargeWhite, LargeYellow, LargeOrange], maxParticles := 50,
       creationRate := 0.5, startTheta := [0.0, PI], startDistance := [0.0],
       startSpin := [0.01, 0.017, 0.03], startDrive := [0.15], speed := 1.0,
       rotationalSpeed := -0.01)
  }

  function StarsTraits(): (p: Profile)
    ensures p.kind == Stars && WellShaped(p)
  {
    Base(Stars).(maxParticles := 10, patterns := [SmallWhite, SmallYellow, SmallOrange],
       startDistance := [50.0, 100.0, 125.0, 150.0, 175.0, 200.0, 225.0, 250.0, 275.0,
                         300.0, 325.0, 350.0],
       creationRate := 0.1)
  }

  function RedMistTraits(u1: Unit, u2: Unit): (p: Profile)
    ensures p.kind == RedMist && WellShaped(p)
  {
    RedMistProfile(RedMist, Pick([-0.002, 0.0, 0.002], u1), Uniform(490.0, 510.0, u2))
  }

  function RedFistTraits(u1: Unit): (p: Profile)
    ensures p.kind == RedFist && WellShaped(p)
  {
    RedMistProfile(RedFist, Pick([-0.002, 0.0, 0.002], u1), 500.0).(
      pulse := RedMistPulse(500.0, 0.25, 1.0),
      maxParticles := 40, centreAttraction := [0.0, 0.0, 0.05],
      particleAttraction := [-5.0], speed := 5.0)
  }

  function RedPissedTraits(u1: Unit, u2: Unit): (p: Profile)
    ensures p.kind == RedPissed && WellShaped(p)
  {
    RedMistProfile(RedPissed, Pick([-0.002, 0.0, 0.002], u1), Uniform(490.0, 510.0, u2)).(
      maxParticles := 25, centreAttraction := [-1000.0])
  }

  function GreenBlobTraits(u1: Unit, now: int): (p: Profile)
    ensures p.kind == GreenBlob && WellShaped(p)
  {
    Base(GreenBlob).(pulse := GreenBlobPulse(now), patterns := [LargeGreen, LargeGreen, LargeCyan],
       minParticles := 25.0, maxParticles := 50, creationRate := 0.1,
       startDistance := [50.0, 75.0, 100.0, 125.0, 150.0],
       centreAttraction := [-150.0, 0.0, 0.12], particleAttraction := [0.5, 0.0, -0.002],
       startDrive := [0.0, 0.1, 0.25, 0.5, 0.75, 1.0, 1.25, 2.0],
       startSpin := [-0.01, 0.0, 0.01], speed := 1.0,
       rotationalSpeed := Pick([-0.01, 0.0, 0.01], u1), decayRate := 2.0)
  }

  function BawbleTraits(u1: Unit, u2: Unit): (p: Profile)
    ensures p.kind == Bawble && WellShaped(p)
  {
    Base(Bawble).(pulse := BawblePulse,
       patterns := [SmallWhite, SmallCyan, SmallWhite,
                    Pick([LargeGreen, LargeMagenta, LargeMagenta, LargeBlue], u1)],
       minParticles := 20.0, maxParticles := 50,
       rotationalSpeed := Pick([-0.01, 0.01], u2), speed := 3.0,
       particleAttraction := [-3.0], centreAttraction := [0.0, 0.0, 0.05],
       creationRate := 0.1, startSpin := [-0.2, -0.1, 0.05, 0.15],
       startDrive := [0.0, 0.0, 0.0, 0.0, 2.0], maturationRate := 10.0,
       startDistance := [1.0])
  }

  function DeadDuckTraits(): (p: Profile)
    ensures p.kind == DeadDuck && WellShaped(p)
  {
    Base(DeadDuck).(maxParticles := 0, randomness := 0.0, conformity := 0.0)
  }

  /**
   * `new Kind()`: the values the class's constructor sets. `u1` and `u2`
   * stand for the random draws whose results the constructor keeps (the
   * first and second `choose` or `random` it makes, or for `RedFist` the
   * last one) and `now` for `performance.now()`.
   */
  function Catalogue(kind: Kind, u1: Unit, u2: Unit, now: int): (p: Profile)
    ensures p.kind == kind && WellShaped(p)
  {
    match kind
    case Flame => FlameTraits(u1)
    case Burst => BurstTraits()
    case Virus => VirusTraits(u1, u2)
    case Ring => RingTraits()
    case BlackDeath => BlackDeathTraits()
    case BlackHole => BlackHoleTraits()
    case Snow => SnowTraits()
    case WhiteHole => WhiteHoleTraits()
    case Swarm => SwarmTraits(u1)
    case Crackler => CracklerTraits(u1)
    case Streaker => StreakerTraits()
    case Explosion => ExplosionTraits()
    case Rose => RoseTraits()
    case Galaxy => GalaxyTraits()
    case Stars => StarsTraits()
    case RedMist => RedMistTraits(u1, u2)
    case RedFist => RedFistTraits(u1)
    case RedPissed => RedPissedTraits(u1, u2)
    case GreenBlob => GreenBlobTraits(u1, now)
    case Bawble => BawbleTraits(u1, u2)
    case DeadDuck => DeadDuckTraits()
  }

  /** The traits a dropped firework is given. */
  const DeadDuckProfile: Profile := DeadDuckTraits()

  /** `DeadDuck` keeps no particles, adds no noise and steers nowhere. */
  lemma {:induction false} DeadDuckShape(u1: Unit, u2: Unit, now: int)
    ensures var p := Catalogue(DeadDuck, u1, u2, now);
      p == DeadDuckProfile && p.maxParticles == 0 && p.minParticles == 0.0
      && p.randomness == 0.0 && p.conformity == 0.0 && p.creationRate == 0.0
  {
  }

  // ---------------------------------------------------------------------
  // The pulse overrides.

  /** `Virus`: the third centre coefficient over a 900 ms cycle. */
  function VirusLevel(now: int): (r: real)
    ensures r == 0.0 || r == 0.02 || r == 0.01
    ensures 0.0 <= r <= 0.02
  {
    var n := IntRem(now, 900);
    if n < 150 then 0.0 else if n < 300 then 0.02 else 0.01
  }

  /** `Ring`: the middle centre coefficient over a 2000 ms cycle. */
  function RingPull(now: int): (r: real)
    ensures r == -13.5 || r == -14.4 || r == -15.0
    ensures -15.0 <= r <= -13.5
  {
    var n := IntRem(now, 2000);
    if n < 100 then -13.5 else if 350 < n < 550 then -14.4 else -15.0
  }

  /** `Ring`: the brightness over a 2000 ms cycle. */
  function RingBrightness(now: int): (r: real)
    ensures r == 1.0 || r == 0.5
  {
    if IntRem(now, 2000) < 300 then 1.0 else 0.5
  }

  /** `RedMist` and its subclasses: a flash once per `rate` milliseconds. */
  function MistBrightness(t: real, rate: real, base: real, peak: real): (r: real)
    requires rate > 0.0
    ensures r == base || r == peak
    ensures rate <= 250.0 || t < 0.0 ==> r == base
  {
    if Rem(t, rate) < 250.0 then base else peak
  }

  /** `GreenBlob`: the first centre coefficient over a 500 ms cycle from `start`. */
  function BlobPull(now: int, start: int): (r: real)
    ensures r == -300.0 || r == -150.0
    ensures start <= now <= start + 350 ==> r == -150.0
  {
    if IntRem(now - start, 500) > 350 then -300.0 else -150.0
  }

  /** `Bawble`: the third centre coefficient over a 1000 ms cycle. */
  function BawbleLevel(now: int): (r: real)
    ensures r == 0.045 || r == 0.05
  {
    if IntRem(now, 1000) < 150 then 0.045 else 0.05
  }

  /**
   * The profile after the override's assignments to `centre_attraction` and
   * `brightness` at time `now`.
   */
  function Pulsed(p: Profile, now: int): (r: Profile)
    requires WellShaped(p)
    ensures WellShaped(r)
    ensures r.(centreAttraction := p.centreAttraction, brightness := p.brightness) == p
    ensures p.pulse.Steady? ==> r == p
  {
    match p.pulse
    case Steady => p
    case VirusPulse => p.(centreAttraction := [0.0, 0.0, VirusLevel(now)])
    case RingPulse =>
      p.(centreAttraction := [0.0, RingPull(now), 0.15], brightness := RingBrightness(now))
    case RedMistPulse(rate, base, peak) =>
      p.(brightness := MistBrightness(now as real, rate, base, peak))
    case GreenBlobPulse(start) => p.(centreAttraction := [BlobPull(now, start), 0.0, 0.12])
    case BawblePulse => p.(centreAttraction := [0.0, 0.0, BawbleLevel(now)])
  }

  /** The integer pulses repeat with their cycle length. */
  lemma {:induction false} IntegerPulsesPeriodic(now: int, start: int)
    requires now >= 0
    ensures VirusLevel(now + 900) == VirusLevel(now)
    ensures RingPull(now + 2000) == RingPull(now)
    ensures RingBrightness(now + 2000) == RingBrightness(now)
    ensures BawbleLevel(now + 1000) == BawbleLevel(now)
    ensures now >= start ==> BlobPull(now + 500, start) == BlobPull(now, start)
  {
    assert (now + 900) % 900 == now % 900;
    assert (now + 2000) % 2000 == now % 2000;
    assert (now + 1000) % 1000 == now % 1000;
    assert (now - start + 500) % 500 == (now - start) % 500;
  }

  /** The `RedMist` flash repeats every `rate` milliseconds. */
  lemma {:induction false} MistPeriodic(t: real, rate: real, base: real, peak: real)
    requires rate > 0.0 && t >= 0.0
    ensures MistBrightness(t + rate, rate, base, peak) == MistBrightness(t, rate, base, peak)
  {
    RemPeriodic(t, rate);
  }

  /** Each pulse takes exactly the values its override lists. */
  lemma {:induction false} PulseLevels(now: int, start: int)
    requires now >= 0
    ensures VirusLevel(now) == 0.0 <==> now % 900 < 150
    ensures VirusLevel(now) == 0.02 <==> 150 <= now % 900 < 300
    ensures RingBrightness(now) == 1.0 <==> now % 2000 < 300
    ensures RingPull(now) == -14.4 <==> 350 < now % 2000 < 550
    ensures RingPull(now) == -13.5 <==> now % 2000 < 100
    ensures BawbleLevel(now) == 0.045 <==> now % 1000 < 150
    ensures now >= start ==> (BlobPull(now, start) == -300.0 <==> (now - start) % 500 > 350)
    ensures VirusLevel(now) == 0.01 <==> now % 900 >= 300
    ensures RingPull(now) == -15.0 <==> 100 <= now % 2000 <= 350 || now % 2000 >= 550
    ensures RingBrightness(now) == 0.5 <==> now % 2000 >= 300
    ensures BawbleLevel(now) == 0.05 <==> now % 1000 >= 150
    ensures now >= start ==> (BlobPull(now, start) == -150.0 <==> (now - start) % 500 <= 350)
  {
  }

  // ---------------------------------------------------------------------
  // `adjust` and the shared `applyToFirework`.

  /** The five firework fields `applyToFirework` updates. */
  datatype Steering = Steering(
    numberOfParticles: real,
    speed: real,
    direction: real,
    rotationalSpeed: real,
    brightness: real)

  /** The four `normal()` draws one `applyToFirework` makes, in call order. */
  datatype Noise = Noise(speed: real, direction: real, rotation: real, brightness: real)

  /**
   * `adjust(current, target, jitter, frame_ratio)` with `z` the `normal()`
   * draw: a step of `conformity` toward `target` plus `randomness` noise,
   * both scaled by the frame ratio.
   */
  function Adjust(p: Profile, current: real, target: real, jitter: real, fr: real, z: real): (r: real)
    ensures fr == 0.0 ==> r == current
    ensures current == target && (p.randomness == 0.0 || jitter == 0.0 || z == 0.0) ==> r == current
  {
    current + ((target - current) * p.conformity + jitter * p.randomness * z) * fr
  }

  lemma NoNoise(d: real, c: real, j: real, z: real, fr: real)
    ensures (d * c + j * 0.0 * z) * fr == d * (c * fr)
  {
  }

  lemma StepBetween(d: real, k: real)
    requires 0.0 <= k <= 1.0
    ensures d >= 0.0 ==> 0.0 <= d * k <= d
    ensures d < 0.0 ==> d <= d * k <= 0.0
  {
  }

  /**
   * Without noise, and with a step of at most one, `adjust` moves toward the
   * target and never past it.
   */
  lemma {:induction false} AdjustConverges(p: Profile, current: real, target: real,
                                           jitter: real, fr: real, z: real)
    requires p.randomness == 0.0 && 0.0 <= p.conformity * fr <= 1.0
    ensures var r := Adjust(p, current, target, jitter, fr, z);
      Min(current, target) <= r <= Max(current, target)
  {
    var d := target - current;
    var k := p.conformity * fr;
    NoNoise(d, p.conformity, jitter, z, fr);
    StepBetween(d, k);
    assert Adjust(p, current, target, jitter, fr, z) == current + d * k;
  }

  /** Without conformity and randomness `adjust` leaves its value alone. */
  lemma {:induction false} AdjustStill(p: Profile, current: real, target: real,
                                       jitter: real, fr: real, z: real)
    requires p.randomness == 0.0 && p.conformity == 0.0
    ensures Adjust(p, current, target, jitter, fr, z) == current
  {
    NoNoise(target - current, 0.0, jitter, z, fr);
  }

  /**
   * The shared `applyToFirework`: the particle target grows by the creation
   * rate but never drops below `min_particles`; the other four fields are
   * `adjust`ed toward the traits' values (the direction toward itself).
   */
  function Applied(p: Profile, s: Steering, fr: real, noise: Noise): (r: Steering)
    ensures r.numberOfParticles >= p.minParticles
    ensures r.numberOfParticles >= s.numberOfParticles + p.creationRate * fr
    ensures r.numberOfParticles == p.minParticles
         || r.numberOfParticles == s.numberOfParticles + p.creationRate * fr
  {
    Steering(
      Max(p.minParticles, s.numberOfParticles + p.creationRate * fr),
      Adjust(p, s.speed, p.speed, p.speed * 0.1, fr, noise.speed),
      Adjust(p, s.direction, s.direction, 0.1, fr, noise.direction),
      Adjust(p, s.rotationalSpeed, p.rotationalSpeed, p.rotationalSpeed * 0.1, fr, noise.rotation),
      Adjust(p, s.brightness, p.brightness, p.brightness * 0.1, fr, noise.brightness))
  }

  /** With no randomness the direction does not drift. */
  lemma {:induction false} DirectionSteady(p: Profile, s: Steering, fr: real, noise: Noise)
    requires p.randomness == 0.0
    ensures Applied(p, s, fr, noise).direction == s.direction
  {
    NoNoise(0.0, p.conformity, 0.1, noise.direction, fr);
  }

  /**
   * Under `DeadDuck` the shared `applyToFirework` keeps speed, direction,
   * rotation and brightness, and keeps a non-negative particle target.
   */
  lemma {:induction false} DeadDuckHolds(s: Steering, fr: real, noise: Noise)
    ensures var r := Applied(DeadDuckProfile, s, fr, noise);
      r.speed == s.speed && r.direction == s.direction
      && r.rotationalSpeed == s.rotationalSpeed && r.brightness == s.brightness
      && r.numberOfParticles == Max(0.0, s.numberOfParticles)
  {
    var p := DeadDuckProfile;
    DeadDuckShape(0.0, 0.0, 0);
    AdjustStill(p, s.speed, p.speed, p.speed * 0.1, fr, noise.speed);
    AdjustStill(p, s.direction, s.direction, 0.1, fr, noise.direction);
    AdjustStill(p, s.rotationalSpeed, p.rotationalSpeed, p.rotationalSpeed * 0.1, fr, noise.rotation);
    AdjustStill(p, s.brightness, p.brightness, p.brightness * 0.1, fr, noise.brightness);
  }

  // ---------------------------------------------------------------------
  // `newParticleArgs`.

  /** The six random draws of one `newParticleArgs` call. */
  datatype SpawnDraw = SpawnDraw(
    distance: Unit, theta: Unit, pattern: Unit, direction: Unit, spin: Unit, drive: Unit)

  /** `[pattern, x, y, direction, spin, drive]` for `Particle.initialize`. */
  datatype ParticleArgs = ParticleArgs(
    pattern: Pattern, x: real, y: real, direction: real, spin: real, drive: real)

  /** The start angle: round-robin through the list, or drawn at random. */
  function StartTheta(p: Profile, i: nat, d: SpawnDraw): real
  {
    if |p.startTheta| == 0 then Uniform(0.0, 2.0 * PI, d.theta)
    else p.startTheta[i % |p.startTheta|]
  }

  /** The arguments `newParticleArgs` builds when its index is `i`. */
  function ArgsFor(p: Profile, i: nat, d: SpawnDraw, trig: Trig): (a: ParticleArgs)
    requires WellShaped(p)
    ensures a.pattern in p.patterns && a.spin in p.startSpin && a.drive in p.startDrive
    ensures |p.startTheta| > 0 ==> a.direction == p.startTheta[i % |p.startTheta|]
    ensures |p.startTheta| == 0 ==> 0.0 <= a.direction < 2.0 * PI
  {
    var distance := Pick(p.startDistance, d.distance);
    var theta := StartTheta(p, i, d);
    ParticleArgs(
      Pick(p.patterns, d.pattern),
      distance * trig.cos(theta),
      distance * trig.sin(theta),
      if |p.startTheta| == 0 then Uniform(0.0, 2.0 * PI, d.direction) else theta,
      Pick(p.startSpin, d.spin),
      Pick(p.startDrive, d.drive))
  }

  /** The index after a call: it advances only when there is a list to cycle. */
  function NextThetaIndex(p: Profile, i: nat): (j: nat)
    ensures |p.startTheta| > 0 ==> j == i + 1
    ensures |p.startTheta| == 0 ==> j == i
  {
    if |p.startTheta| == 0 then i else i + 1
  }

  /** The index after `k` calls starting from `i`. */
  function ThetaAfter(p: Profile, i: nat, k: nat): nat
  {
    if |p.startTheta| == 0 then i else i + k
  }

  /** A full turn of calls comes back to the same start angle. */
  lemma {:induction false} ThetaCycles(p: Profile, i: nat, d: SpawnDraw, trig: Trig)
    requires WellShaped(p) && |p.startTheta| > 0
    ensures ArgsFor(p, i + |p.startTheta|, d, trig) == ArgsFor(p, i, d, trig)
  {
    var n := |p.startTheta|;
    assert (i + n) % n == i % n by { ModShift(i, n); }
  }

  lemma ModShift(i: nat, n: nat)
    requires n > 0
    ensures (i + n) % n == i % n
  {
    var q, r := i / n, i % n;
    var q', r' := (i + n) / n, (i + n) % n;
    assert (q + 1 - q') * n == r' - r;
    MultipleBelow(q + 1 - q', n);
  }

  /** A multiple of `n` strictly between `-n` and `n` is zero. */
  lemma MultipleBelow(k: int, n: nat)
    requires n > 0 && -(n as int) < k * n < n
    ensures k == 0
  {
  }

  /**
   * A `FireworkTraits` instance: its constructor's values (which the pulse
   * overrides reassign) and `particle_start_theta_i`.
   */
  class Traits {
    var profile: Profile
    var startThetaIndex: nat

    predicate Valid()
      reads this
    {
      WellShaped(profile)
    }

    /** `new Kind()`. */
    constructor (kind: Kind, u1: Unit, u2: Unit, now: int)
      ensures Valid() && profile == Catalogue(kind, u1, u2, now) && startThetaIndex == 0
    {
      profile := Catalogue(kind, u1, u2, now);
      startThetaIndex := 0;
    }

    /**
     * `applyToFirework(firework, frame_ratio)` at time `now`: the subclass's
     * pulse reassigns the traits' own fields, then the shared step returns
     * the firework's new steering fields.
     */
    method ApplyToFirework(s: Steering, fr: real, now: int, noise: Noise) returns (r: Steering)
      requires Valid()
      modifies this
      ensures Valid()
      ensures profile == Pulsed(old(profile), now)
      ensures startThetaIndex == old(startThetaIndex)
      ensures r == Applied(profile, s, fr, noise)
    {
      profile := Pulsed(profile, now);
      r := Applied(profile, s, fr, noise);
    }

    /** `newParticleArgs()`: the next spawn's arguments; advances the index. */
    method NewParticleArgs(d: SpawnDraw, trig: Trig) returns (args: ParticleArgs)
      requires Valid()
      modifies this
      ensures Valid() && profile == old(profile)
      ensures args == ArgsFor(profile, old(startThetaIndex), d, trig)
      ensures startThetaIndex == NextThetaIndex(profile, old(startThetaIndex))
    {
      args := ArgsFor(profile, startThetaIndex, d, trig);
      if |profile.startTheta| > 0 {
        startThetaIndex := startThetaIndex + 1;
      }
    }
  }
}
