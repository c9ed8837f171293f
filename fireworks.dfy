/**
 * The particle engine of fireworks.js: a `Particle` is a pooled object that
 * `initialize` overwrites; a `Firework` keeps three FIFO lists of particles
 * (active `particles`, `death_row`, and the `recycling_bin` pool) and moves
 * particles between them on every `update`.
 */
module Fireworks {
  import opened Utils
  import opened Traits

  /**
   * A mood object as the display uses it: its stability, the trait classes it
   * draws from and its optional cap on fireworks. Moods are compared by
   * identity, as the objects of moods.js are.
   */
  class Mood {
    const title: string
    const stability: real
    const traits: seq<Kind>
    const maxFireworks: Option<int>

    constructor (title: string, stability: real, traits: seq<Kind>, maxFireworks: Option<int>)
      ensures this.title == title && this.stability == stability
      ensures this.traits == traits && this.maxFireworks == maxFireworks
    {
      this.title := title;
      this.stability := stability;
      this.traits := traits;
      this.maxFireworks := maxFireworks;
    }
  }

  /** Everything a particle holds, as one value. */
  datatype PState = PState(
    pattern: Pattern, x: real, y: real, xSpeed: real, ySpeed: real,
    direction: real, spin: real, drive: real, age: real)

  /** The state `initialize` leaves behind: the arguments, at rest, age 0. */
  function Initialized(a: ParticleArgs): PState
  {
    PState(a.pattern, a.x, a.y, 0.0, 0.0, a.direction, a.spin, a.drive, 0.0)
  }

  class Particle {
    var pattern: Pattern
    var x: real
    var y: real
    var xSpeed: real
    var ySpeed: real
    var direction: real
    var spin: real
    var drive: real
    var age: real

    function View(): PState
      reads this
    {
      PState(pattern, x, y, xSpeed, ySpeed, direction, spin, drive, age)
    }

    /** `new Particle()`: a blank object, filled in by `Initialize`. */
    constructor ()
      ensures View().age == 0.0
    {
      pattern := LargeWhite;
      x, y, xSpeed, ySpeed, direction, spin, drive, age := 0.0, 0.0, 0.0, 0.0, 0.0, 0.0, 0.0, 0.0;
    }

    /**
     * `initialize(pattern, x, y, direction, spin, drive)`: the new state is a
     * function of the arguments alone, so a recycled particle keeps nothing
     * of its previous life.
     */
    method Initialize(a: ParticleArgs)
      modifies this
      ensures View() == Initialized(a)
    {
      pattern, x, y := a.pattern, a.x, a.y;
      xSpeed, ySpeed := 0.0, 0.0;
      direction, spin, drive := a.direction, a.spin, a.drive;
      age := 0.0;
    }

    /** One frame of an active particle: it drifts by its speed and matures by `m`. */
    method Mature(fr: real, m: real)
      modifies this
      ensures View() == Matured(old(View()), fr, m)
    {
      x := x + xSpeed * fr;
      y := y + ySpeed * fr;
      age := Min(age + m, 100.0);
    }

    /** One frame of a dying particle: it drifts by its speed and fades by `d`. */
    method Decay(fr: real, d: real)
      modifies this
      ensures View() == Decayed(old(View()), fr, d)
    {
      x := x + xSpeed * fr;
      y := y + ySpeed * fr;
      age := Max(age - d, 0.0);
    }
  }

  /** The values of the particles in `ps`, in order. */
  function Views(ps: seq<Particle>): (r: seq<PState>)
    reads set p | p in ps
    ensures |r| == |ps|
  {
    seq(|ps|, i reads set p | p in ps requires 0 <= i < |ps| => ps[i].View())
  }

  lemma {:induction false} ViewsAppend(ps: seq<Particle>, p: Particle)
    ensures Views(ps + [p]) == Views(ps) + [p.View()]
  {
    assert (ps + [p])[..|ps|] == ps;
  }

  /**
   * The particles the spawn loop appends, as values: the `m`-th is
   * initialized with the `m`-th arguments the traits hand out.
   */
  function Spawned(p: Profile, i: nat, k: nat, draws: nat -> SpawnDraw, trig: Trig): (r: seq<PState>)
    requires WellShaped(p)
    ensures |r| == k
  {
    seq(k, m requires 0 <= m < k => Initialized(ArgsFor(p, ThetaAfter(p, i, m), draws(m), trig)))
  }

  /** The value of the `i`th particle of two lists walked one after the other. */
  lemma {:induction false} ViewAt(ps: seq<Particle>, ds: seq<Particle>, i: nat)
    requires i < |ps| + |ds|
    ensures (Views(ps) + Views(ds))[i] == (if i < |ps| then ps[i] else ds[i - |ps|]).View()
  {
    if i >= |ps| {
      assert (Views(ps) + Views(ds))[i] == Views(ds)[i - |ps|];
    }
  }

  twostate lemma ViewsUnchanged(ps: seq<Particle>)
    requires forall p :: p in ps ==> unchanged(p)
    ensures Views(ps) == old(Views(ps))
  {
  }

  /** The values of a split list are the split values. */
  lemma {:induction false} ViewsSplit(d: seq<Particle>, p: seq<Particle>, k: nat)
    requires k <= |p|
    ensures Views(p[k..]) == Views(p)[k..]
    ensures Views(d + p[..k]) == Views(d) + Views(p)[..k]
  {
    assert forall i :: 0 <= i < |p| - k ==> Views(p[k..])[i] == Views(p)[k..][i];
    assert forall i :: 0 <= i < |d| + k ==> Views(d + p[..k])[i] == (Views(d) + Views(p)[..k])[i];
  }

  /** No object occurs twice. */
  ghost predicate NoDup(s: seq<Particle>)
  {
    |s| == 0 || (s[0] !in s[1..] && NoDup(s[1..]))
  }

  /** The same, counted: every object occurs at most once. */
  ghost predicate Once(s: seq<Particle>)
  {
    forall p :: p in s ==> multiset(s)[p] <= 1
  }

  lemma {:induction false} NoDupOnce(s: seq<Particle>)
    ensures NoDup(s) <==> Once(s)
  {
    if |s| > 0 {
      var t := s[1..];
      NoDupOnce(t);
      assert s == [s[0]] + t;
      assert multiset(s) == multiset{s[0]} + multiset(t);
      if Once(s) {
        assert multiset(s)[s[0]] <= 1;
        forall p | p in t ensures multiset(t)[p] <= 1 {
          assert p in s;
        }
      }
      if s[0] !in t && Once(t) {
        forall p | p in s ensures multiset(s)[p] <= 1 {
          if p != s[0] {
            assert p in t;
          }
        }
      }
    }
  }

  ghost predicate Distinct(s: seq<Particle>)
  {
    forall i, j :: 0 <= i < j < |s| ==> s[i] != s[j]
  }

  lemma {:induction false} OnceDistinct(s: seq<Particle>)
    requires Once(s)
    ensures Distinct(s)
  {
    forall i, j | 0 <= i < j < |s|
      ensures s[i] != s[j]
    {
      Repeated(s, i, j);
    }
  }

  lemma {:induction false} Repeated(s: seq<Particle>, i: nat, j: nat)
    requires i < j < |s|
    ensures s[i] == s[j] ==> multiset(s)[s[i]] >= 2
  {
    assert s == s[..i] + [s[i]] + s[i + 1..j] + [s[j]] + s[j + 1..];
  }

  /** What uniqueness of the three lists together gives each part. */
  lemma {:induction false} UniqueParts(a: seq<Particle>, b: seq<Particle>, c: seq<Particle>)
    requires NoDup(a + b + c)
    ensures Distinct(a) && Distinct(b)
    ensures forall i, j :: 0 <= i < |a| && 0 <= j < |b| ==> a[i] != b[j]
    ensures forall p :: p in c ==> p !in a && p !in b
  {
    var s := a + b + c;
    NoDupOnce(s);
    OnceDistinct(s);
    forall i, j | 0 <= i < j < |a| ensures a[i] != a[j] { assert a[i] == s[i] && a[j] == s[j]; }
    forall i, j | 0 <= i < j < |b| ensures b[i] != b[j] {
      assert b[i] == s[|a| + i] && b[j] == s[|a| + j];
    }
    forall i, j | 0 <= i < |a| && 0 <= j < |b| ensures a[i] != b[j] {
      assert a[i] == s[i] && b[j] == s[|a| + j];
    }
    forall p | p in c ensures p !in a && p !in b {
      assert multiset(s) == multiset(a) + multiset(b) + multiset(c);
      assert multiset(s)[p] == multiset(a)[p] + multiset(b)[p] + multiset(c)[p];
      assert p in s;
    }
  }

  /** An active particle after one frame: it drifts and ages, at most to 100. */
  function Matured(v: PState, fr: real, m: real): PState
  {
    v.(x := v.x + v.xSpeed * fr, y := v.y + v.ySpeed * fr, age := Min(v.age + m, 100.0))
  }

  /** A dying particle after one frame: it drifts and fades, at least to 0. */
  function Decayed(v: PState, fr: real, d: real): PState
  {
    v.(x := v.x + v.xSpeed * fr, y := v.y + v.ySpeed * fr, age := Max(v.age - d, 0.0))
  }

  function MaturedAll(vs: seq<PState>, fr: real, m: real): (r: seq<PState>)
    ensures |r| == |vs|
  {
    seq(|vs|, i requires 0 <= i < |vs| => Matured(vs[i], fr, m))
  }

  function DecayedAll(vs: seq<PState>, fr: real, d: real): (r: seq<PState>)
    ensures |r| == |vs|
  {
    seq(|vs|, i requires 0 <= i < |vs| => Decayed(vs[i], fr, d))
  }

  /** Every age lies in [0, 100]. */
  predicate AgesInRange(vs: seq<PState>)
  {
    forall i :: 0 <= i < |vs| ==> 0.0 <= vs[i].age <= 100.0
  }

  /**
   * Maturing never takes an age past 100 and decaying never below 0; with a
   * non-negative step, an age that starts in [0, 100] stays there and moves
   * the right way.
   */
  lemma {:induction false} AgeSteps(v: PState, fr: real, step: real)
    ensures Matured(v, fr, step).age <= 100.0 && Decayed(v, fr, step).age >= 0.0
    ensures step >= 0.0 && 0.0 <= v.age <= 100.0 ==>
      v.age <= Matured(v, fr, step).age <= 100.0 && 0.0 <= Decayed(v, fr, step).age <= v.age
  {
  }

  lemma {:induction false} AgesStayInRange(vs: seq<PState>, fr: real, step: real)
    requires step >= 0.0 && AgesInRange(vs)
    ensures AgesInRange(MaturedAll(vs, fr, step)) && AgesInRange(DecayedAll(vs, fr, step))
  {
    forall i | 0 <= i < |vs|
      ensures 0.0 <= MaturedAll(vs, fr, step)[i].age <= 100.0
      ensures 0.0 <= DecayedAll(vs, fr, step)[i].age <= 100.0
    {
      AgeSteps(vs[i], fr, step);
    }
  }

  /** How many particles the spawn loop adds to reach `floor(number)`. */
  function SpawnCount(number: real, have: nat): nat
  {
    if number.Floor > have then number.Floor - have else 0
  }

  /** How many particles the trim loop moves to death row. */
  function TrimCount(have: nat, max: int): (k: nat)
    ensures max >= 0 ==> k <= have && have - k <= max
  {
    if have > max then have - max else 0
  }

  /**
   * How many particles retirement takes off the front of death row: it goes
   * on while the head has faded to 0 or the row is longer than allowed.
   */
  function RetireCount(ages: seq<real>, maxDeathRow: int): (k: nat)
    ensures k <= |ages|
  {
    if |ages| > 0 && (ages[0] == 0.0 || |ages| > maxDeathRow) then
      1 + RetireCount(ages[1..], maxDeathRow)
    else
      0
  }

  /**
   * After retirement the row is empty, or its head is still visible and it
   * is within its length limit; and every particle retired was faded or in
   * excess.
   */
  lemma {:induction false} RetireStops(ages: seq<real>, maxDeathRow: int)
    ensures var k := RetireCount(ages, maxDeathRow);
      k == |ages| || (ages[k] != 0.0 && |ages| - k <= maxDeathRow)
    ensures forall i :: 0 <= i < RetireCount(ages, maxDeathRow) ==>
      ages[i] == 0.0 || |ages| - i > maxDeathRow
  {
    if |ages| > 0 && (ages[0] == 0.0 || |ages| > maxDeathRow) {
      RetireStops(ages[1..], maxDeathRow);
      forall i | 0 < i < RetireCount(ages, maxDeathRow)
        ensures ages[i] == 0.0 || |ages| - i > maxDeathRow
      {
        assert ages[i] == ages[1..][i - 1];
      }
    }
  }

  function Ages(vs: seq<PState>): (r: seq<real>)
    ensures |r| == |vs|
  {
    seq(|vs|, i requires 0 <= i < |vs| => vs[i].age)
  }

  /** The active and dying particles of a firework, as values. */
  datatype Lists = Lists(active: seq<PState>, dying: seq<PState>)

  /** How much an active particle matures in a frame of ratio `fr`. */
  function MaturationStep(p: Profile, fr: real): real
  {
    p.maturationRate * fr
  }

  /** How much a dying particle fades in a frame of ratio `fr`. */
  function DecayStep(p: Profile, fr: real): real
  {
    p.decayRate * fr
  }

  lemma {:induction false} StepsNonNegative(p: Profile, fr: real)
    requires WellShaped(p) && fr >= 0.0
    ensures MaturationStep(p, fr) >= 0.0 && DecayStep(p, fr) >= 0.0
  {
    NonNegativeStep(p.maturationRate, fr);
    NonNegativeStep(p.decayRate, fr);
  }

  /**
   * The last three steps of `update` on values: the active particles mature
   * and the dying ones decay, and then faded or excess particles leave the
   * front of death row.
   */
  function Aged(p: Profile, fr: real, active: seq<PState>, dying: seq<PState>): Lists
  {
    var row := DecayedAll(dying, fr, DecayStep(p, fr));
    Lists(MaturedAll(active, fr, MaturationStep(p, fr)), row[RetireCount(Ages(row), p.maxDeathRow)..])
  }

  /**
   * What the particle half of `update` does to the values, once the spawned
   * particles have been appended to `active`: the oldest active particles in
   * excess of the profile's maximum join the back of death row, and then
   * both lists age as `Aged` says.
   */
  function AfterParticles(p: Profile, fr: real, active: seq<PState>, dying: seq<PState>): Lists
    requires WellShaped(p)
  {
    var k := TrimCount(|active|, p.maxParticles);
    Aged(p, fr, active[k..], dying + active[..k])
  }

  /**
   * After an update at most `maxParticles` particles are active: as many as
   * there were, capped at `maxParticles`.
   */
  lemma {:induction false} ActiveCapped(p: Profile, fr: real, active: seq<PState>, dying: seq<PState>)
    requires WellShaped(p)
    ensures var r := AfterParticles(p, fr, active, dying);
      |r.active| == if |active| <= p.maxParticles then |active| else p.maxParticles
  {
  }

  /**
   * After an update death row is empty, or its head is still visible and it
   * is no longer than `maxDeathRow`.
   */
  lemma {:induction false} DeathRowSettled(p: Profile, fr: real, active: seq<PState>, dying: seq<PState>)
    requires WellShaped(p)
    ensures var r := AfterParticles(p, fr, active, dying);
      |r.dying| == 0 || (r.dying[0].age != 0.0 && |r.dying| <= p.maxDeathRow)
  {
    var k := TrimCount(|active|, p.maxParticles);
    var row := DecayedAll(dying + active[..k], fr, DecayStep(p, fr));
    var j := RetireCount(Ages(row), p.maxDeathRow);
    RetireStops(Ages(row), p.maxDeathRow);
    if j < |row| {
      assert Ages(row)[j] == row[j].age;
    }
  }

  /**
   * For a non-negative frame ratio, ages that start in [0, 100] stay there
   * through an update, for active and dying particles alike.
   */
  lemma {:induction false} AgesKept(p: Profile, fr: real, active: seq<PState>, dying: seq<PState>)
    requires WellShaped(p) && fr >= 0.0 && AgesInRange(active) && AgesInRange(dying)
    ensures var r := AfterParticles(p, fr, active, dying);
      AgesInRange(r.active) && AgesInRange(r.dying)
  {
    var k := TrimCount(|active|, p.maxParticles);
    var joined := dying + active[..k];
    assert AgesInRange(active[k..]);
    assert AgesInRange(joined);
    StepsNonNegative(p, fr);
    AgesStayInRange(active[k..], fr, MaturationStep(p, fr));
    AgesStayInRange(joined, fr, DecayStep(p, fr));
    var row := DecayedAll(joined, fr, DecayStep(p, fr));
    var j := RetireCount(Ages(row), p.maxDeathRow);
    assert forall i :: 0 <= i < |row| - j ==> row[j..][i] == row[j + i];
  }

  /**
   * Under `DeadDuck` traits one update leaves no particle active: all of
   * them, spawned ones included, join the back of death row in order
   * before it ages.
   */
  lemma {:induction false} DeadDuckDrains(fr: real, active: seq<PState>, dying: seq<PState>)
    ensures var r := AfterParticles(DeadDuckProfile, fr, active, dying);
      r == Aged(DeadDuckProfile, fr, [], dying + active) && r.active == []
  {
    var p := DeadDuckProfile;
    DeadDuckShape(0.0, 0.0, 0);
    assert TrimCount(|active|, p.maxParticles) == |active|;
    assert active[|active|..] == [] && active[..|active|] == active;
  }

  lemma NonNegativeStep(rate: real, fr: real)
    requires rate >= 0.0 && fr >= 0.0
    ensures rate * fr >= 0.0
  {
    if rate > 0.0 && fr > 0.0 {
      assert rate * fr > 0.0;
    }
  }

  /**
   * How many particles retirement takes off the front of death row in the
   * update `AfterParticles` describes.
   */
  function Retiring(p: Profile, fr: real, active: seq<PState>, dying: seq<PState>): (k: nat)
    requires WellShaped(p)
    ensures k <= |dying| + TrimCount(|active|, p.maxParticles)
    ensures AfterParticles(p, fr, active, dying).dying
      == DecayedAll(dying + active[..TrimCount(|active|, p.maxParticles)], fr, DecayStep(p, fr))[k..]
  {
    var kt := TrimCount(|active|, p.maxParticles);
    RetireCount(Ages(DecayedAll(dying + active[..kt], fr, DecayStep(p, fr))), p.maxDeathRow)
  }

  /**
   * Where the particle objects go in one update, from active list `p0`,
   * death row `d0` and pool `b0` to `p1`, `d1` and `b1`: the first `t` of
   * the `added` particles are the front of the pool, `t` being the smaller
   * of their number and the pool's size (the rest are new); the oldest `kt`
   * of `p0 + added` join the back of death row; the first `kr` of that row
   * leave it and are offered to what is left of the pool.
   */
  predicate Turnover(
    p0: seq<Particle>, d0: seq<Particle>, b0: seq<Particle>, added: seq<Particle>, kt: nat, kr: nat,
    p1: seq<Particle>, d1: seq<Particle>, b1: seq<Particle>)
  {
    var t := if |added| < |b0| then |added| else |b0|;
    var all := p0 + added;
    && |b0| <= 100 && kt <= |all| && kr <= |d0| + kt
    && added[..t] == b0[..t]
    && p1 == all[kt..]
    && d1 == (d0 + all[..kt])[kr..]
    && b1 == Recycled(b0[t..], (d0 + all[..kt])[..kr])
  }

  /** The pool after `retired` is offered to it one by one: it keeps at most 100. */
  function Recycled(bin: seq<Particle>, retired: seq<Particle>): (r: seq<Particle>)
    requires |bin| <= 100
    ensures |r| <= 100 && r <= bin + retired
    ensures |r| == if |bin + retired| < 100 then |bin + retired| else 100
  {
    var all := bin + retired;
    if |all| < 100 then all else all[..100]
  }

  lemma {:induction false} RecycledStep(bin: seq<Particle>, retired: seq<Particle>, q: Particle)
    requires |bin| <= 100
    ensures Recycled(bin, retired + [q]) ==
      if |Recycled(bin, retired)| < 100 then Recycled(bin, retired) + [q] else Recycled(bin, retired)
  {
    assert bin + (retired + [q]) == (bin + retired) + [q];
  }

  /** A sub-multiset of a list without repeats has none either. */
  lemma {:induction false} OnceSub(s: seq<Particle>, t: seq<Particle>)
    requires Once(s) && multiset(t) <= multiset(s)
    ensures Once(t)
  {
    forall p | p in t ensures multiset(t)[p] <= 1 {
      assert p in s by { assert multiset(t)[p] <= multiset(s)[p]; }
    }
  }

  /** Rearranging or dropping objects of a list without repeats keeps it so. */
  lemma {:induction false} NoDupSub(s: seq<Particle>, t: seq<Particle>)
    requires NoDup(s) && multiset(t) <= multiset(s)
    ensures NoDup(t)
  {
    NoDupOnce(s);
    OnceSub(s, t);
    NoDupOnce(t);
  }

  /** Taking the pool's front out leaves no repeats and puts it in no list. */
  lemma {:induction false} UniqueShift(a: seq<Particle>, b: seq<Particle>, c: seq<Particle>)
    requires NoDup(a + b + c) && |c| > 0
    ensures NoDup(a + b + c[1..]) && c[0] !in a + b + c[1..]
  {
    assert c == [c[0]] + c[1..];
    var s, t := a + b + c, a + b + c[1..];
    assert multiset(s) == multiset(t) + multiset{c[0]};
    NoDupSub(s, t);
    NoDupOnce(s);
    assert multiset(s)[c[0]] == multiset(t)[c[0]] + 1;
  }

  /** Appending an object found in no list keeps the lists free of repeats. */
  lemma {:induction false} UniqueAppend(a: seq<Particle>, b: seq<Particle>, c: seq<Particle>, p: Particle)
    requires NoDup(a + b + c) && p !in a + b + c
    ensures NoDup((a + [p]) + b + c)
  {
    var s, t := a + b + c, (a + [p]) + b + c;
    NoDupOnce(s);
    assert multiset(s) == multiset(a) + multiset(b) + multiset(c);
    assert multiset(t) == multiset(a) + multiset{p} + multiset(b) + multiset(c);
    assert p !in multiset(s);
    forall q | q in t ensures multiset(t)[q] <= 1 {
      if q != p {
        assert multiset(t)[q] == multiset(s)[q];
        assert q in s;
      }
    }
    NoDupOnce(t);
  }

  /** Moving the oldest active particle to the back of death row. */
  lemma {:induction false} UniqueTrim(a: seq<Particle>, b: seq<Particle>, c: seq<Particle>)
    requires NoDup(a + b + c) && |a| > 0
    ensures NoDup(a[1..] + (b + [a[0]]) + c)
  {
    assert a == [a[0]] + a[1..];
    assert multiset(a[1..] + (b + [a[0]]) + c) == multiset(a + b + c);
    NoDupSub(a + b + c, a[1..] + (b + [a[0]]) + c);
  }

  /** Retiring the head of death row, into the pool or out of the firework. */
  lemma {:induction false} UniqueRetire(a: seq<Particle>, b: seq<Particle>, c: seq<Particle>)
    requires NoDup(a + b + c) && |b| > 0
    ensures NoDup(a + b[1..] + c) && NoDup(a + b[1..] + (c + [b[0]]))
  {
    assert b == [b[0]] + b[1..];
    assert multiset(a + b[1..] + (c + [b[0]])) == multiset(a + b + c);
    NoDupSub(a + b + c, a + b[1..] + (c + [b[0]]));
    assert multiset(a + b[1..] + c) <= multiset(a + b + c);
    NoDupSub(a + b + c, a + b[1..] + c);
  }

  /**
   * One turn of the spawn loop takes the pool's front while the pool lasts:
   * the particles appended so far are the pool's first ones, and the pool is
   * what remains of it.
   */
  lemma {:induction false} PoolStep(added: seq<Particle>, b0: seq<Particle>, bin: seq<Particle>, j: nat, p: Particle, bin': seq<Particle>)
    requires j == |added|
    requires var t := if j < |b0| then j else |b0|; bin == b0[t..] && added[..t] == b0[..t]
    requires |bin| > 0 ==> p == bin[0] && bin' == bin[1..]
    requires |bin| == 0 ==> bin' == bin
    ensures var t := if j + 1 < |b0| then j + 1 else |b0|; bin' == b0[t..] && (added + [p])[..t] == b0[..t]
  {
    if j < |b0| {
      assert b0[..j + 1] == b0[..j] + [b0[j]];
      assert (added + [p])[..j + 1] == added[..j] + [p];
    } else {
      assert (added + [p])[..|b0|] == added[..|b0|];
    }
  }

  /** One `particle.draw(context, x, y, scale)` call with the alpha `draw` assigns. */
  datatype Blit = Blit(pattern: Pattern, x: real, y: real, alpha: real)

  /** What `draw` reads of the firework: its position, the cosine and sine of its angle, and its brightness over 100. */
  datatype Pose = Pose(x: real, y: real, cos: real, sin: real, brightness: real)

  /** The global alpha a particle of this age is drawn with, for a brightness over 100. */
  function Faded(age: real, brightness: real): real
  {
    age * brightness
  }

  /** The canvas x of a particle at (`x`, `y`) in a firework at `fx` turned by an angle with this cosine and sine. */
  function Across(fx: real, cos: real, sin: real, x: real, y: real): real
  {
    fx + x * cos - y * sin
  }

  /** The canvas y of the same particle. */
  function Down(fy: real, cos: real, sin: real, x: real, y: real): real
  {
    fy + x * sin + y * cos
  }

  /**
   * Where the second copy of a sprite at `t` (of width `size`, on an axis of
   * length `extent`) goes: one extent to the right when it sticks out on
   * the left, one extent to the left when it sticks out on the right, and
   * nowhere (0) otherwise.
   */
  function Offset(t: real, extent: real, size: real): real
  {
    if t < 0.0 then t + extent else if t > extent - size then t - extent else 0.0
  }

  /**
   * The sprites `draw` emits for one particle: none when its age is not
   * positive; otherwise the sprite centred on the particle's rotated and
   * wrapped position, plus a copy across each edge it overlaps and, when it
   * overlaps both, a copy across the corner.
   */
  function ParticleBlits(v: PState, pose: Pose, width: real, height: real): seq<Blit>
    requires width > 0.0 && height > 0.0
  {
    if v.age > 0.0 then
      var size := v.pattern.size as real;
      var xt := Wrap(Across(pose.x, pose.cos, pose.sin, v.x, v.y), width) - size / 2.0;
      var yt := Wrap(Down(pose.y, pose.cos, pose.sin, v.x, v.y), height) - size / 2.0;
      Copies(v.pattern, xt, yt, Offset(xt, width, size), Offset(yt, height, size), Faded(v.age, pose.brightness))
    else
      []
  }

  /** The sprite at (`xt`, `yt`) and its copies at the offsets `xo` and `yo` that are not 0. */
  function Copies(p: Pattern, xt: real, yt: real, xo: real, yo: real, alpha: real): (r: seq<Blit>)
    ensures |r| == if xo == 0.0 then (if yo == 0.0 then 1 else 2) else (if yo == 0.0 then 2 else 4)
    ensures r[0] == Blit(p, xt, yt, alpha)
  {
    [Blit(p, xt, yt, alpha)]
      + (if xo != 0.0 then [Blit(p, xo, yt, alpha)] else [])
      + (if yo != 0.0 then [Blit(p, xt, yo, alpha)] + (if xo != 0.0 then [Blit(p, xo, yo, alpha)] else []) else [])
  }

  /** The sprites of the first `n` of `vs`, in order. */
  function BlitsUpTo(vs: seq<PState>, n: nat, pose: Pose, width: real, height: real): seq<Blit>
    requires n <= |vs| && width > 0.0 && height > 0.0
  {
    if n == 0 then [] else BlitsUpTo(vs, n - 1, pose, width, height) + ParticleBlits(vs[n - 1], pose, width, height)
  }

  /** The sprites of all of `vs`, in order. */
  function AllBlits(vs: seq<PState>, pose: Pose, width: real, height: real): seq<Blit>
    requires width > 0.0 && height > 0.0
  {
    BlitsUpTo(vs, |vs|, pose, width, height)
  }

  /**
   * A sprite whose left edge is at `w - size / 2`, for a wrapped coordinate
   * `w` in [0, extent] and a sprite narrower than two extents, gets a second
   * copy exactly when it sticks out past either edge; the copy is one
   * extent away and lies on the far side, where it fills in what is cut off.
   */
  lemma {:induction false} EdgeCopy(w: real, extent: real, size: real)
    requires 0.0 <= w <= extent && 0.0 < size < 2.0 * extent
    ensures var t := w - size / 2.0; var o := Offset(t, extent, size);
      && (o != 0.0 <==> t < 0.0 || t + size > extent)
      && (t < 0.0 ==> o == t + extent && o + size > extent)
      && (t >= 0.0 && t + size > extent ==> o == t - extent && o < 0.0)
  {
  }

  /** Each particle gives 0, 1, 2 or 4 sprites, and none exactly when its age is not positive. */
  lemma {:induction false} BlitCount(v: PState, pose: Pose, width: real, height: real)
    requires width > 0.0 && height > 0.0
    ensures var n := |ParticleBlits(v, pose, width, height)|;
      (n == 0 <==> v.age <= 0.0) && (n == 0 || n == 1 || n == 2 || n == 4)
  {
  }

  /** A firework never emits more than four sprites per particle. */
  lemma {:induction false} AllBlitsBound(vs: seq<PState>, pose: Pose, width: real, height: real)
    requires width > 0.0 && height > 0.0
    ensures |AllBlits(vs, pose, width, height)| <= 4 * |vs|
    ensures (forall i :: 0 <= i < |vs| ==> vs[i].age <= 0.0) ==> AllBlits(vs, pose, width, height) == []
  {
    PrefixBound(vs, |vs|, pose, width, height);
  }

  lemma {:induction false} PrefixBound(vs: seq<PState>, n: nat, pose: Pose, width: real, height: real)
    requires n <= |vs| && width > 0.0 && height > 0.0
    ensures |BlitsUpTo(vs, n, pose, width, height)| <= 4 * n
    ensures (forall i :: 0 <= i < n ==> vs[i].age <= 0.0) ==> BlitsUpTo(vs, n, pose, width, height) == []
  {
    if n > 0 {
      PrefixBound(vs, n - 1, pose, width, height);
      BlitCount(vs[n - 1], pose, width, height);
    }
  }

  /** The sprites of a live particle, with its corner `(xt, yt)` computed once. */
  lemma {:induction false} SpritesAt(v: PState, pose: Pose, width: real, height: real, xt: real, yt: real)
    requires width > 0.0 && height > 0.0 && v.age > 0.0
    requires xt == Wrap(Across(pose.x, pose.cos, pose.sin, v.x, v.y), width) - v.pattern.size as real / 2.0
    requires yt == Wrap(Down(pose.y, pose.cos, pose.sin, v.x, v.y), height) - v.pattern.size as real / 2.0
    ensures ParticleBlits(v, pose, width, height)
         == Copies(v.pattern, xt, yt, Offset(xt, width, v.pattern.size as real),
                   Offset(yt, height, v.pattern.size as real), Faded(v.age, pose.brightness))
  {
    var size := v.pattern.size as real;
    var alpha := Faded(v.age, pose.brightness);
    assert ParticleBlits(v, pose, width, height)
        == Copies(v.pattern, xt, yt, Offset(xt, width, size), Offset(yt, height, size), alpha);
  }

  /**
   * One turn of the loop in `draw`: a particle with a positive age is
   * drawn at its rotated, wrapped corner, then copied across the edges it
   * overlaps; one that is not is skipped.
   */
  method DrawParticle(particle: PState, pose: Pose, width: real, height: real) returns (drawn: seq<Blit>)
    requires width > 0.0 && height > 0.0
    ensures drawn == ParticleBlits(particle, pose, width, height)
  {
    drawn := [];
    var age := particle.age;
    if age > 0.0 {
      var px, py, size := particle.x, particle.y, particle.pattern.size as real;
      var halfSize := size / 2.0;
      var xt := Wrap(Across(pose.x, pose.cos, pose.sin, px, py), width) - halfSize;
      var yt := Wrap(Down(pose.y, pose.cos, pose.sin, px, py), height) - halfSize;
      var alpha := Faded(age, pose.brightness);
      var xo := if xt < 0.0 then xt + width else if xt > width - size then xt - width else 0.0;
      var yo := if yt < 0.0 then yt + height else if yt > height - size then yt - height else 0.0;
      drawn := [Blit(particle.pattern, xt, yt, alpha)];
      if xo != 0.0 {
        drawn := drawn + [Blit(particle.pattern, xo, yt, alpha)];
      }
      if yo != 0.0 {
        drawn := drawn + [Blit(particle.pattern, xt, yo, alpha)];
        if xo != 0.0 {
          drawn := drawn + [Blit(particle.pattern, xo, yo, alpha)];
        }
      }
      assert xo == Offset(xt, width, size) && yo == Offset(yt, height, size);
      assert drawn == Copies(particle.pattern, xt, yt, xo, yo, alpha);
      SpritesAt(particle, pose, width, height, xt, yt);
    }
  }

  /** The scalar fields of a firework. */
  datatype FState = FState(
    x: real, y: real, theta: real, direction: real, speed: real,
    rotationalSpeed: real, numberOfParticles: real, brightness: real, mood: Option<Mood>)

  /**
   * The first step of `update`: the firework drifts along its direction by
   * its speed and turns by its rotational speed, both times `fr`, with the
   * position wrapped onto the canvas and the angle onto one turn.
   */
  function Moved(f: FState, fr: real, width: real, height: real, trig: Trig): (r: FState)
    requires width > 0.0 && height > 0.0
    ensures 0.0 <= r.x <= width && 0.0 <= r.y <= height && 0.0 <= r.theta <= 2.0 * PI
    ensures r.(x := f.x, y := f.y, theta := f.theta) == f
  {
    f.(x := Wrap(f.x + trig.cos(f.direction) * f.speed * fr, width),
       y := Wrap(f.y + trig.sin(f.direction) * f.speed * fr, height),
       theta := Wrap(f.theta + f.rotationalSpeed * fr, 2.0 * PI))
  }

  /** A firework's fields with the steering values `s` written into them. */
  function Steered(f: FState, s: Steering): FState
  {
    f.(numberOfParticles := s.numberOfParticles, speed := s.speed, direction := s.direction,
       rotationalSpeed := s.rotationalSpeed, brightness := s.brightness)
  }

  class Firework {
    var traits: Traits
    var x: real
    var y: real
    var theta: real
    var direction: real
    var speed: real
    var rotationalSpeed: real
    var numberOfParticles: real
    var brightness: real
    var mood: Option<Mood>
    var particles: seq<Particle>
    var deathRow: seq<Particle>
    var recyclingBin: seq<Particle>
    ghost var Repr: set<object>

    /**
     * The traits are well shaped, no particle object is in two places at
     * once, and the pool holds at most 100 particles.
     */
    ghost predicate Valid()
      reads this, traits
    {
      && this in Repr && traits in Repr && traits.Valid()
      && (forall p :: p in particles + deathRow + recyclingBin ==> p in Repr)
      && NoDup(particles + deathRow + recyclingBin)
      && |recyclingBin| <= 100
    }

    function Fields(): FState
      reads this
    {
      FState(x, y, theta, direction, speed, rotationalSpeed, numberOfParticles, brightness, mood)
    }

    function Steer(): Steering
      reads this
    {
      Steering(numberOfParticles, speed, direction, rotationalSpeed, brightness)
    }

    /** `new Firework(traits, x, y, direction)`: no particles yet, full brightness. */
    constructor (traits: Traits, x: real, y: real, direction: real)
      requires traits.Valid()
      ensures Valid() && fresh(Repr - {traits})
      ensures this.traits == traits && particles == [] && deathRow == [] && recyclingBin == []
      ensures Fields() == FState(x, y, direction, direction, 0.0, 0.0, 0.0, 1.0, None)
    {
      this.traits := traits;
      this.x, this.y := x, y;
      theta, this.direction := direction, direction;
      speed, rotationalSpeed, numberOfParticles := 0.0, 0.0, 0.0;
      particles, deathRow, recyclingBin := [], [], [];
      brightness := 1.0;
      mood := None;
      Repr := {this, traits};
    }

    /**
     * `firework.traits = t` and `firework.mood = m`, as the display does
     * them: the firework takes on new traits and the mood `m` and keeps
     * everything else, its particles included.
     */
    method SetTraits(t: Traits, m: Option<Mood>)
      requires Valid() && t.Valid()
      modifies this
      ensures Valid() && Repr == old(Repr) + {t}
      ensures traits == t && Fields() == old(Fields()).(mood := m)
      ensures particles == old(particles) && deathRow == old(deathRow) && recyclingBin == old(recyclingBin)
    {
      traits, mood := t, m;
      Repr := Repr + {t};
    }

    /** `is_empty`: no particle is active or dying. */
    predicate IsEmpty(): (r: bool)
      reads this
      ensures r <==> particles + deathRow == []
    {
      |particles| == 0 && |deathRow| == 0
    }

    /**
     * The spawn loop after `j` turns, measured from the state `Spawn` started
     * in (`p0` particles, `b0` pool, `i0` start-angle index, and the values
     * `vp0` of the particles and `vd0` of death row): the `j` particles
     * appended come first from the pool and are initialized with the first `j`
     * arguments the traits hand out; nothing else has changed.
     */
    ghost predicate SpawnedSoFar(
      j: nat, added: seq<Particle>, f0: FState, t0: Traits, prof: Profile, i0: nat,
      p0: seq<Particle>, d0: seq<Particle>, b0: seq<Particle>, vp0: seq<PState>, vd0: seq<PState>,
      draws: nat -> SpawnDraw, trig: Trig)
      reads this, traits, particles, deathRow
    {
      && Fields() == f0 && traits == t0 && traits.profile == prof && WellShaped(prof)
      && deathRow == d0 && j == |added| && particles == p0 + added
      && (var t := if j < |b0| then j else |b0|; recyclingBin == b0[t..] && added[..t] == b0[..t])
      && traits.startThetaIndex == ThetaAfter(prof, i0, j)
      && Views(particles) == vp0 + Spawned(prof, i0, j, draws, trig)
      && Views(deathRow) == vd0
    }

    /**
     * The spawn loop: until `floor(number_of_particles)` particles are active,
     * take the front of the pool (or a new particle), initialize it with the
     * traits' next arguments and append it.
     */
    method Spawn(trig: Trig, draws: nat -> SpawnDraw) returns (ghost added: seq<Particle>)
      requires Valid()
      modifies Repr
      ensures Valid() && fresh(Repr - old(Repr))
      ensures SpawnedSoFar(
        SpawnCount(numberOfParticles, |old(particles)|), added,
        old(Fields()), old(traits), old(traits.profile), old(traits.startThetaIndex),
        old(particles), old(deathRow), old(recyclingBin), old(Views(particles)), old(Views(deathRow)),
        draws, trig)
    {
      ghost var f0, t0, prof, i0 := Fields(), traits, traits.profile, traits.startThetaIndex;
      ghost var p0, d0, b0 := particles, deathRow, recyclingBin;
      ghost var vp0, vd0 := Views(particles), Views(deathRow);
      var n := numberOfParticles.Floor;
      var j := 0;
      added := [];
      assert Spawned(prof, i0, 0, draws, trig) == [];
      while |particles| < n
        invariant Valid() && fresh(Repr - old(Repr))
        invariant SpawnedSoFar(j, added, f0, t0, prof, i0, p0, d0, b0, vp0, vd0, draws, trig)
        invariant j <= SpawnCount(f0.numberOfParticles, |p0|)
        decreases n - |particles|
      {
        added := SpawnStep(j, added, f0, t0, prof, i0, p0, d0, b0, vp0, vd0, draws, trig);
        j := j + 1;
      }
    }

    /** One turn of the spawn loop, carrying `SpawnedSoFar` from `j` to `j + 1`. */
    method SpawnStep(
      j: nat, ghost added: seq<Particle>, ghost f0: FState, ghost t0: Traits, ghost prof: Profile, ghost i0: nat,
      ghost p0: seq<Particle>, ghost d0: seq<Particle>, ghost b0: seq<Particle>, ghost vp0: seq<PState>, ghost vd0: seq<PState>,
      draws: nat -> SpawnDraw, trig: Trig) returns (ghost added': seq<Particle>)
      requires Valid()
      requires SpawnedSoFar(j, added, f0, t0, prof, i0, p0, d0, b0, vp0, vd0, draws, trig)
      modifies Repr
      ensures Valid() && fresh(Repr - old(Repr))
      ensures SpawnedSoFar(j + 1, added', f0, t0, prof, i0, p0, d0, b0, vp0, vd0, draws, trig)
    {
      ghost var bin, vs := recyclingBin, Views(particles);
      ghost var p := SpawnOne(trig, draws(j));
      PoolStep(added, b0, bin, j, p, recyclingBin);
      added' := added + [p];
      assert Spawned(prof, i0, j + 1, draws, trig)
        == Spawned(prof, i0, j, draws, trig) + [Initialized(ArgsFor(prof, ThetaAfter(prof, i0, j), draws(j), trig))];
    }

    /** One turn of the spawn loop. */
    method SpawnOne(trig: Trig, d: SpawnDraw) returns (ghost p: Particle)
      requires Valid()
      modifies Repr
      ensures Valid() && fresh(Repr - old(Repr))
      ensures Fields() == old(Fields()) && traits == old(traits)
      ensures traits.profile == old(traits.profile) && deathRow == old(deathRow)
      ensures particles == old(particles) + [p]
      ensures |old(recyclingBin)| > 0 ==> p == old(recyclingBin)[0] && recyclingBin == old(recyclingBin)[1..]
      ensures |old(recyclingBin)| == 0 ==> fresh(p) && recyclingBin == old(recyclingBin)
      ensures traits.startThetaIndex == NextThetaIndex(traits.profile, old(traits.startThetaIndex))
      ensures Views(particles) == old(Views(particles))
        + [Initialized(ArgsFor(traits.profile, old(traits.startThetaIndex), d, trig))]
      ensures Views(deathRow) == old(Views(deathRow))
    {
      var q := TakeFromPool();
      Append(q, d, trig);
      p := q;
    }

    /** Initializes `q` with the traits' next arguments and appends it. */
    method Append(q: Particle, d: SpawnDraw, trig: Trig)
      requires Valid() && q in Repr && q !in particles + deathRow + recyclingBin
      modifies this, traits, q
      ensures Valid() && Repr == old(Repr)
      ensures Fields() == old(Fields()) && traits == old(traits)
      ensures traits.profile == old(traits.profile) && deathRow == old(deathRow)
      ensures recyclingBin == old(recyclingBin) && particles == old(particles) + [q]
      ensures traits.startThetaIndex == NextThetaIndex(traits.profile, old(traits.startThetaIndex))
      ensures Views(particles) == old(Views(particles))
        + [Initialized(ArgsFor(traits.profile, old(traits.startThetaIndex), d, trig))]
      ensures Views(deathRow) == old(Views(deathRow))
    {
      Fill(q, d, trig);
      Place(q);
    }

    /** Initializes `q`, which is in none of the lists, with the traits' next arguments. */
    method Fill(q: Particle, d: SpawnDraw, trig: Trig)
      requires traits.Valid() && q !in particles + deathRow
      modifies traits, q
      ensures traits.profile == old(traits.profile)
      ensures traits.startThetaIndex == NextThetaIndex(traits.profile, old(traits.startThetaIndex))
      ensures q.View() == Initialized(ArgsFor(traits.profile, old(traits.startThetaIndex), d, trig))
      ensures Views(particles) == old(Views(particles)) && Views(deathRow) == old(Views(deathRow))
    {
      var args := traits.NewParticleArgs(d, trig);
      q.Initialize(args);
      ViewsUnchanged(particles);
      ViewsUnchanged(deathRow);
    }

    /** Appends `q`, which is in none of the lists, to the active particles. */
    method Place(q: Particle)
      requires Valid() && q in Repr && q !in particles + deathRow + recyclingBin
      modifies this
      ensures Valid() && Repr == old(Repr)
      ensures Fields() == old(Fields()) && traits == old(traits)
      ensures deathRow == old(deathRow) && recyclingBin == old(recyclingBin)
      ensures particles == old(particles) + [q]
      ensures Views(particles) == old(Views(particles)) + [q.View()]
    {
      UniqueAppend(particles, deathRow, recyclingBin, q);
      ViewsAppend(particles, q);
      particles := particles + [q];
    }

    /**
     * `update(frame_ratio, width, height)`: the firework moves, its traits
     * pulse and steer it, and its particles are spawned, trimmed, aged and
     * retired. `now` is the clock the pulses read, `noise` the four normal
     * draws of the steering and `draws` the random draws of the spawns.
     */
    method Update(fr: real, width: real, height: real, now: int, trig: Trig, noise: Noise, draws: nat -> SpawnDraw)
      returns (ghost added: seq<Particle>)
      requires Valid() && width > 0.0 && height > 0.0
      modifies Repr
      ensures Valid() && fresh(Repr - old(Repr)) && traits == old(traits)
      ensures traits.profile == Pulsed(old(traits.profile), now)
      ensures var s := Applied(traits.profile, old(Steer()), fr, noise);
        var n := SpawnCount(s.numberOfParticles, |old(particles)|);
        var active := old(Views(particles)) + Spawned(traits.profile, old(traits.startThetaIndex), n, draws, trig);
        && Fields() == Steered(Moved(old(Fields()), fr, width, height, trig),
             s.(numberOfParticles := s.numberOfParticles - TrimCount(|active|, traits.profile.maxParticles) as real))
        && traits.startThetaIndex == ThetaAfter(traits.profile, old(traits.startThetaIndex), n)
        && Lists(Views(particles), Views(deathRow)) == AfterParticles(traits.profile, fr, active, old(Views(deathRow)))
      ensures |particles| <= traits.profile.maxParticles
      ensures |deathRow| == 0 || (deathRow[0].age != 0.0 && |deathRow| <= traits.profile.maxDeathRow)
      ensures var s := Applied(traits.profile, old(Steer()), fr, noise);
        var n := SpawnCount(s.numberOfParticles, |old(particles)|);
        var active := old(Views(particles)) + Spawned(traits.profile, old(traits.startThetaIndex), n, draws, trig);
        && |added| == n
        && Turnover(old(particles), old(deathRow), old(recyclingBin), added,
             TrimCount(|active|, traits.profile.maxParticles), Retiring(traits.profile, fr, active, old(Views(deathRow))),
             particles, deathRow, recyclingBin)
    {
      ghost var st, vp0, vd0, i0 := Steer(), Views(particles), Views(deathRow), traits.startThetaIndex;
      Move(fr, width, height, trig);
      SteerBy(fr, now, noise);
      ghost var prof, s := traits.profile, Applied(traits.profile, st, fr, noise);
      ghost var active := vp0 + Spawned(prof, i0, SpawnCount(s.numberOfParticles, |particles|), draws, trig);
      added := UpdateParticles(fr, trig, draws);
      ActiveCapped(prof, fr, active, vd0);
      DeathRowSettled(prof, fr, active, vd0);
    }

    /** Moves the firework as `Moved` says; nothing else changes. */
    method Move(fr: real, width: real, height: real, trig: Trig)
      requires Valid() && width > 0.0 && height > 0.0
      modifies this
      ensures Valid() && Repr == old(Repr) && traits == old(traits)
      ensures Fields() == Moved(old(Fields()), fr, width, height, trig)
      ensures particles == old(particles) && deathRow == old(deathRow) && recyclingBin == old(recyclingBin)
    {
      var f := Moved(Fields(), fr, width, height, trig);
      x, y, theta := f.x, f.y, f.theta;
    }

    /**
     * `traits.applyToFirework(this, frame_ratio)`: the traits pulse, and
     * the firework's steering fields take the values the traits compute.
     */
    method SteerBy(fr: real, now: int, noise: Noise)
      requires Valid()
      modifies this, traits
      ensures Valid() && Repr == old(Repr) && traits == old(traits)
      ensures traits.profile == Pulsed(old(traits.profile), now)
      ensures traits.startThetaIndex == old(traits.startThetaIndex)
      ensures Fields() == Steered(old(Fields()), Applied(traits.profile, old(Steer()), fr, noise))
      ensures particles == old(particles) && deathRow == old(deathRow) && recyclingBin == old(recyclingBin)
    {
      var s := traits.ApplyToFirework(Steer(), fr, now, noise);
      numberOfParticles, speed, direction, rotationalSpeed, brightness
        := s.numberOfParticles, s.speed, s.direction, s.rotationalSpeed, s.brightness;
    }

    /**
     * The particle half of `update`: spawn up to the target count, trim to
     * the traits' maximum, mature the active particles, decay death row and
     * retire its faded or excess head. The values that result are those
     * `AfterParticles` describes; of the scalar fields only the target count
     * changes, by one per trimmed particle.
     */
    method UpdateParticles(fr: real, trig: Trig, draws: nat -> SpawnDraw) returns (ghost added: seq<Particle>)
      requires Valid()
      modifies Repr
      ensures Valid() && fresh(Repr - old(Repr)) && traits == old(traits)
      ensures traits.profile == old(traits.profile)
      ensures traits.startThetaIndex
        == ThetaAfter(traits.profile, old(traits.startThetaIndex), SpawnCount(old(numberOfParticles), |old(particles)|))
      ensures var prof := traits.profile;
        var active := old(Views(particles))
          + Spawned(prof, old(traits.startThetaIndex), SpawnCount(old(numberOfParticles), |old(particles)|), draws, trig);
        && Lists(Views(particles), Views(deathRow)) == AfterParticles(prof, fr, active, old(Views(deathRow)))
        && Fields() == old(Fields()).(numberOfParticles :=
             old(numberOfParticles) - TrimCount(|active|, prof.maxParticles) as real)
      ensures var prof := traits.profile;
        var n := SpawnCount(old(numberOfParticles), |old(particles)|);
        var active := old(Views(particles)) + Spawned(prof, old(traits.startThetaIndex), n, draws, trig);
        && |added| == n
        && Turnover(old(particles), old(deathRow), old(recyclingBin), added,
             TrimCount(|active|, prof.maxParticles), Retiring(prof, fr, active, old(Views(deathRow))),
             particles, deathRow, recyclingBin)
    {
      added := SpawnAndTrim(trig, draws);
      AgeAndRetire(fr);
    }

    /** Spawning and trimming, the first two steps of `UpdateParticles`. */
    method SpawnAndTrim(trig: Trig, draws: nat -> SpawnDraw) returns (ghost added: seq<Particle>)
      requires Valid()
      modifies Repr
      ensures Valid() && fresh(Repr - old(Repr)) && traits == old(traits)
      ensures traits.profile == old(traits.profile)
      ensures traits.startThetaIndex
        == ThetaAfter(traits.profile, old(traits.startThetaIndex), SpawnCount(old(numberOfParticles), |old(particles)|))
      ensures var prof := traits.profile;
        var active := old(Views(particles))
          + Spawned(prof, old(traits.startThetaIndex), SpawnCount(old(numberOfParticles), |old(particles)|), draws, trig);
        var k := TrimCount(|active|, prof.maxParticles);
        && Views(particles) == active[k..] && Views(deathRow) == old(Views(deathRow)) + active[..k]
        && Fields() == old(Fields()).(numberOfParticles := old(numberOfParticles) - k as real)
      ensures var t := if |added| < |old(recyclingBin)| then |added| else |old(recyclingBin)|;
        var all := old(particles) + added;
        var k := TrimCount(|all|, traits.profile.maxParticles);
        && |added| == SpawnCount(old(numberOfParticles), |old(particles)|)
        && added[..t] == old(recyclingBin)[..t] && recyclingBin == old(recyclingBin)[t..]
        && particles == all[k..] && deathRow == old(deathRow) + all[..k]
    {
      added := Spawn(trig, draws);
      Trim();
    }

    /** Maturing, decaying and retiring, the last three steps of `UpdateParticles`. */
    method AgeAndRetire(fr: real)
      requires Valid()
      modifies Repr
      ensures Valid() && Repr == old(Repr) && traits == old(traits)
      ensures traits.profile == old(traits.profile) && traits.startThetaIndex == old(traits.startThetaIndex)
      ensures Fields() == old(Fields())
      ensures Lists(Views(particles), Views(deathRow)) == Aged(traits.profile, fr, old(Views(particles)), old(Views(deathRow)))
      ensures var k := RetireCount(Ages(DecayedAll(old(Views(deathRow)), fr, DecayStep(traits.profile, fr))), traits.profile.maxDeathRow);
        && particles == old(particles)
        && deathRow == old(deathRow)[k..] && recyclingBin == Recycled(old(recyclingBin), old(deathRow)[..k])
    {
      var maturation, decay := MaturationStep(traits.profile, fr), DecayStep(traits.profile, fr);
      MatureParticles(fr, maturation);
      DecayDeathRow(fr, decay);
      Retire();
    }

    /**
     * The trim loop: while more particles are active than the traits allow,
     * the oldest moves to the back of death row and the target count drops
     * by one.
     */
    method Trim()
      requires Valid()
      modifies this
      ensures Valid() && Repr == old(Repr) && traits == old(traits)
      ensures var k := TrimCount(|old(particles)|, traits.profile.maxParticles);
        && particles == old(particles)[k..]
        && deathRow == old(deathRow) + old(particles)[..k]
        && Fields() == old(Fields()).(numberOfParticles := old(numberOfParticles) - k as real)
      ensures recyclingBin == old(recyclingBin)
      ensures |particles| <= traits.profile.maxParticles
      ensures var k := TrimCount(|old(particles)|, traits.profile.maxParticles);
        && Views(particles) == old(Views(particles))[k..]
        && Views(deathRow) == old(Views(deathRow)) + old(Views(particles))[..k]
    {
      ghost var p0, d0, f0 := particles, deathRow, Fields();
      ghost var k := 0;
      while |particles| > traits.profile.maxParticles
        invariant Valid() && Repr == old(Repr) && traits == old(traits)
        invariant k <= |p0| && particles == p0[k..] && deathRow == d0 + p0[..k]
        invariant Fields() == f0.(numberOfParticles := f0.numberOfParticles - k as real)
        invariant recyclingBin == old(recyclingBin)
        invariant k <= TrimCount(|p0|, traits.profile.maxParticles)
        decreases |particles|
      {
        UniqueTrim(particles, deathRow, recyclingBin);
        assert p0[..k + 1] == p0[..k] + [p0[k]];
        assert p0[k + 1..] == p0[k..][1..];
        deathRow := deathRow + [particles[0]];
        particles := particles[1..];
        numberOfParticles := numberOfParticles - 1.0;
        k := k + 1;
      }
      ViewsUnchanged(p0);
      ViewsUnchanged(d0);
      ViewsSplit(d0, p0, k);
    }

    /**
     * The maturing loop: every active particle drifts by its speed times
     * `fr` and matures by `m` (the traits' maturation rate times `fr`).
     */
    method MatureParticles(fr: real, m: real)
      requires Valid()
      modifies set p | p in particles
      ensures Views(particles) == MaturedAll(old(Views(particles)), fr, m)
      ensures Views(deathRow) == old(Views(deathRow))
    {
      ghost var vp, vd := Views(particles), Views(deathRow);
      UniqueParts(particles, deathRow, recyclingBin);
      var i := 0;
      while i < |particles|
        invariant 0 <= i <= |particles|
        invariant forall k :: 0 <= k < i ==> particles[k].View() == Matured(vp[k], fr, m)
        invariant forall k :: i <= k < |particles| ==> particles[k].View() == vp[k]
        invariant forall k :: 0 <= k < |deathRow| ==> deathRow[k].View() == vd[k]
      {
        particles[i].Mature(fr, m);
        i := i + 1;
      }
      assert forall k :: 0 <= k < |particles| ==> Views(particles)[k] == MaturedAll(vp, fr, m)[k];
      assert forall k :: 0 <= k < |deathRow| ==> Views(deathRow)[k] == vd[k];
    }

    /**
     * The decaying loop: every particle on death row drifts by its speed
     * times `fr` and fades by `d` (the traits' decay rate times `fr`).
     */
    method DecayDeathRow(fr: real, d: real)
      requires Valid()
      modifies set p | p in deathRow
      ensures Views(deathRow) == DecayedAll(old(Views(deathRow)), fr, d)
      ensures Views(particles) == old(Views(particles))
    {
      ghost var vp, vd := Views(particles), Views(deathRow);
      UniqueParts(particles, deathRow, recyclingBin);
      var i := 0;
      while i < |deathRow|
        invariant 0 <= i <= |deathRow|
        invariant forall k :: 0 <= k < i ==> deathRow[k].View() == Decayed(vd[k], fr, d)
        invariant forall k :: i <= k < |deathRow| ==> deathRow[k].View() == vd[k]
        invariant forall k :: 0 <= k < |particles| ==> particles[k].View() == vp[k]
      {
        deathRow[i].Decay(fr, d);
        i := i + 1;
      }
      assert forall k :: 0 <= k < |deathRow| ==> Views(deathRow)[k] == DecayedAll(vd, fr, d)[k];
      assert forall k :: 0 <= k < |particles| ==> Views(particles)[k] == vp[k];
    }

    /**
     * The retirement loop: while death row's head has faded to 0 or the row
     * is longer than the traits allow, the head leaves the row and goes to
     * the pool unless the pool already holds 100.
     */
    method Retire()
      requires Valid()
      modifies this
      ensures Valid() && Repr == old(Repr) && traits == old(traits)
      ensures Fields() == old(Fields()) && particles == old(particles)
      ensures var k := RetireCount(Ages(old(Views(deathRow))), traits.profile.maxDeathRow);
        && deathRow == old(deathRow)[k..] && recyclingBin == Recycled(old(recyclingBin), old(deathRow)[..k])
        && Views(deathRow) == old(Views(deathRow))[k..]
      ensures Views(particles) == old(Views(particles))
    {
      ghost var d0, b0, ages := deathRow, recyclingBin, Ages(Views(deathRow));
      ghost var mdr := traits.profile.maxDeathRow;
      ghost var j := 0;
      while |deathRow| > 0 && (deathRow[0].age == 0.0 || |deathRow| > traits.profile.maxDeathRow)
        invariant Valid() && Repr == old(Repr) && traits == old(traits)
        invariant Fields() == old(Fields()) && particles == old(particles)
        invariant j <= |d0| && deathRow == d0[j..] && recyclingBin == Recycled(b0, d0[..j])
        invariant RetireCount(ages, mdr) == j + RetireCount(ages[j..], mdr)
        decreases |deathRow|
      {
        var rubbish := RetireHead();
        RecycledStep(b0, d0[..j], rubbish);
        assert d0[..j + 1] == d0[..j] + [rubbish];
        assert d0[j + 1..] == d0[j..][1..];
        assert ages[j..][1..] == ages[j + 1..];
        assert ages[j..][0] == rubbish.age;
        j := j + 1;
      }
      ViewsUnchanged(d0);
      ViewsUnchanged(particles);
      ViewsSplit([], d0, j);
    }

    /** One turn of the retirement loop: death row's head goes to the pool while it holds fewer than 100. */
    method RetireHead() returns (rubbish: Particle)
      requires Valid() && |deathRow| > 0
      modifies this
      ensures Valid() && Repr == old(Repr) && traits == old(traits)
      ensures Fields() == old(Fields()) && particles == old(particles)
      ensures rubbish == old(deathRow)[0] && deathRow == old(deathRow)[1..]
      ensures recyclingBin == if |old(recyclingBin)| < 100 then old(recyclingBin) + [rubbish] else old(recyclingBin)
    {
      rubbish := deathRow[0];
      UniqueRetire(particles, deathRow, recyclingBin);
      deathRow := deathRow[1..];
      if |recyclingBin| < 100 {
        recyclingBin := recyclingBin + [rubbish];
      }
    }

    /** What `draw` reads of the firework itself. */
    function PoseOf(trig: Trig): Pose
      reads this
    {
      Pose(x, y, trig.cos(theta), trig.sin(theta), brightness / 100.0)
    }

    /**
     * `draw`: walks the active particles and then death row, emitting the
     * sprites of each particle that has a positive age (with the copies
     * across the edges it overlaps), and returns how many particles it walked.
     */
    method Draw(width: real, height: real, trig: Trig) returns (npd: nat, blits: seq<Blit>)
      requires width > 0.0 && height > 0.0
      ensures npd == |particles| + |deathRow| && (npd == 0 <==> IsEmpty())
      ensures blits == AllBlits(Views(particles) + Views(deathRow), PoseOf(trig), width, height)
    {
      var np, nd := |particles|, |deathRow|;
      npd := np + nd;
      var pose := Pose(x, y, trig.cos(theta), trig.sin(theta), brightness / 100.0);
      assert pose == PoseOf(trig);
      // Drawing changes no particle, so the walk reads each one's values.
      var vs := Views(particles) + Views(deathRow);
      blits := [];
      var i := 0;
      while i < npd
        invariant 0 <= i <= npd
        invariant blits == BlitsUpTo(vs, i, pose, width, height)
      {
        var drawn := DrawParticle(vs[i], pose, width, height);
        blits := blits + drawn;
        i := i + 1;
      }
      assert |vs| == npd;
    }

    /**
     * The particle the spawn loop fills in: the front of the pool, or a new
     * one when the pool is empty. It is in none of the three lists.
     */
    method TakeFromPool() returns (q: Particle)
      requires Valid()
      modifies this
      ensures Valid() && fresh(Repr - old(Repr)) && q in Repr
      ensures Fields() == old(Fields()) && traits == old(traits)
      ensures particles == old(particles) && deathRow == old(deathRow)
      ensures q !in particles + deathRow + recyclingBin
      ensures |old(recyclingBin)| > 0 ==> q == old(recyclingBin)[0] && recyclingBin == old(recyclingBin)[1..]
      ensures |old(recyclingBin)| == 0 ==> fresh(q) && recyclingBin == old(recyclingBin)
      ensures Views(particles) == old(Views(particles)) && Views(deathRow) == old(Views(deathRow))
    {
      if |recyclingBin| > 0 {
        q := recyclingBin[0];
        UniqueShift(particles, deathRow, recyclingBin);
        recyclingBin := recyclingBin[1..];
      } else {
        q := new Particle();
        Repr := Repr + {q};
      }
    }
  }
}
