/**
 * Helpers shared by the whole display (utils.js): truncated remainder and
 * toroidal wrap-around, the index computation behind `choose`, the affine map
 * behind `random`, and the JavaScript number values the rate estimator can
 * produce (undefined, +Infinity, a finite value).
 *
 * Every `Math.random()` result is a parameter of type `Unit`; cosine and sine
 * are the two functions of a `Trig` parameter.
 */
module Utils {

  datatype Option<T> = None | Some(value: T)

  /** One `Math.random()` result: a real in [0, 1). */
  type Unit = u: real | 0.0 <= u < 1.0

  /** The platform's cosine and sine, left abstract. */
  datatype Trig = Trig(cos: real -> real, sin: real -> real)

  /** `Math.PI` as a double. */
  const PI: real := 3.141592653589793

  /** A JavaScript number that may also be `undefined` or `+Infinity`. */
  datatype Num = Undefined | Infinity | Finite(value: real)

  /** JavaScript `x > c`: false for `undefined`, true for `+Infinity`. */
  predicate Above(x: Num, c: real)
  {
    match x
    case Undefined => false
    case Infinity => true
    case Finite(v) => v > c
  }

  /** JavaScript `x < c`: false for `undefined` and for `+Infinity`. */
  predicate Below(x: Num, c: real)
  {
    match x
    case Undefined => false
    case Infinity => false
    case Finite(v) => v < c
  }

  function Min(a: real, b: real): real { if a <= b then a else b }
  function Max(a: real, b: real): real { if a >= b then a else b }

  /** Rounds toward zero, as JavaScript's `%` does with its quotient. */
  function Trunc(x: real): (q: int)
    ensures x >= 0.0 ==> q as real <= x < q as real + 1.0
    ensures x < 0.0 ==> q as real - 1.0 < x <= q as real
  {
    if x >= 0.0 then x.Floor else -((-x).Floor)
  }

  // Facts of real division and multiplication, each proved on its own so
  // that the solver meets one product at a time.

  lemma DivBelowOne(r: real, n: real)
    requires n > 0.0 && r / n < 1.0
    ensures r < n
  {
  }

  lemma DivAboveMinusOne(r: real, n: real)
    requires n > 0.0 && r / n > -1.0
    ensures r > -n
  {
    assert (-r) / n == -(r / n);
    DivBelowOne(-r, n);
  }

  lemma DivSign(r: real, n: real)
    requires n > 0.0
    ensures r / n >= 0.0 <==> r >= 0.0
  {
  }

  lemma DivOfRemainder(a: real, n: real, q: real)
    requires n > 0.0
    ensures (a - q * n) / n == a / n - q
  {
  }

  lemma DivInUnit(i: real, n: real)
    requires 0.0 <= i < n
    ensures 0.0 <= i / n < 1.0
  {
  }

  lemma DivShift(a: real, n: real)
    requires n > 0.0
    ensures (a + n) / n == a / n + 1.0
  {
    DivOfRemainder(a, n, -1.0);
    assert a - (-1.0) * n == a + n;
  }

  lemma Distribute(i: real, q: real, n: real)
    ensures i - q * n == i + (-q) * n
    ensures i - q * n + n == i + (1.0 - q) * n
    ensures (q + 1.0) * n == q * n + n
  {
  }

  lemma UnitBelow(u: Unit, w: real)
    requires w > 0.0
    ensures u * w < w
  {
  }

  lemma UnitScale(u: Unit, w: real)
    requires w >= 0.0
    ensures 0.0 <= u * w <= w
    ensures w > 0.0 ==> u * w < w
  {
    if w > 0.0 { UnitBelow(u, w); }
  }

  /** A draw scales a span of either sign to a point between 0 and the span. */
  lemma UnitSpan(u: Unit, w: real)
    ensures w >= 0.0 ==> 0.0 <= u * w <= w
    ensures w > 0.0 ==> u * w < w
    ensures w < 0.0 ==> w <= u * w <= 0.0
  {
    if w >= 0.0 {
      UnitScale(u, w);
    } else {
      UnitScale(u, -w);
      assert u * w == -(u * -w);
    }
  }

  /** The remainder left by the quotient rounded toward zero. */
  lemma RemBounds(a: real, n: real)
    requires n > 0.0
    ensures var r := a - Trunc(a / n) as real * n;
      (a >= 0.0 ==> 0.0 <= r < n) && (a < 0.0 ==> -n < r <= 0.0)
  {
    var q := Trunc(a / n) as real;
    var r := a - q * n;
    DivOfRemainder(a, n, q);
    DivSign(a, n);
    DivSign(r, n);
    if a >= 0.0 {
      DivBelowOne(r, n);
    } else {
      DivAboveMinusOne(r, n);
    }
  }

  /**
   * JavaScript's `a % n` for a positive modulus: the remainder of the
   * quotient rounded toward zero, so it carries the sign of `a`.
   */
  function Rem(a: real, n: real): (r: real)
    requires n > 0.0
    ensures a >= 0.0 ==> 0.0 <= r < n
    ensures a < 0.0 ==> -n < r <= 0.0
  {
    RemBounds(a, n);
    a - Trunc(a / n) as real * n
  }

  /** Adding one whole period to a non-negative dividend leaves `%` unchanged. */
  lemma {:induction false} RemPeriodic(a: real, n: real)
    requires n > 0.0 && a >= 0.0
    ensures Rem(a + n, n) == Rem(a, n)
  {
    var q := Trunc(a / n);
    DivShift(a, n);
    DivSign(a, n);
    assert Trunc((a + n) / n) == q + 1;
    Distribute(a, q as real, n);
  }

  /** JavaScript's `a % n` on integers for a positive modulus (truncated). */
  function IntRem(a: int, n: int): (r: int)
    requires n > 0
    ensures a >= 0 ==> 0 <= r < n && r == a % n
    ensures a < 0 ==> -n < r <= 0
  {
    if a >= 0 then a % n else -((-a) % n)
  }

  /** `a` and `b` denote the same point of a circle of length `n`. */
  predicate Congruent(a: real, b: real, n: real, k: int)
  {
    a == b + k as real * n
  }

  /**
   * `wrap(i, n)` of utils.js: `i % n` for non-negative `i`, and
   * `(i % n) + n` for negative `i`. The result lies in [0, n) for
   * non-negative `i` but in (0, n] for negative `i`, so a negative multiple
   * of `n` maps to `n`, not 0.
   */
  function Wrap(i: real, n: real): (r: real)
    requires n > 0.0
    ensures i >= 0.0 ==> 0.0 <= r < n
    ensures i < 0.0 ==> 0.0 < r <= n
  {
    if i < 0.0 then Rem(i, n) + n else Rem(i, n)
  }

  /** Wrapping moves a point by a whole number of periods. */
  lemma {:induction false} WrapCongruent(i: real, n: real)
    requires n > 0.0
    ensures exists k: int :: Congruent(Wrap(i, n), i, n, k)
  {
    var q := Trunc(i / n);
    Distribute(i, q as real, n);
    if i < 0.0 {
      assert Congruent(Wrap(i, n), i, n, 1 - q);
    } else {
      assert Congruent(Wrap(i, n), i, n, -q);
    }
  }

  /** Values already inside the canvas are left where they are. */
  lemma {:induction false} WrapInRange(i: real, n: real)
    requires 0.0 <= i < n
    ensures Wrap(i, n) == i
  {
    DivInUnit(i, n);
    assert Trunc(i / n) == 0;
  }

  /** The two edge cases of a negative argument: -1 wraps to 9, -10 to 10. */
  lemma {:induction false} WrapNegativeExamples()
    ensures Wrap(-1.0, 10.0) == 9.0
    ensures Wrap(-10.0, 10.0) == 10.0
  {
    assert Trunc(-1.0 / 10.0) == 0;
    assert Trunc(-10.0 / 10.0) == -1;
  }

  /**
   * `random(min, max)` for the draw `u`: a point between the bounds, never
   * the upper one when they differ; nothing requires `min <= max`.
   */
  function Uniform(lo: real, hi: real, u: Unit): (r: real)
    ensures lo <= hi ==> lo <= r <= hi
    ensures lo < hi ==> r < hi
    ensures hi < lo ==> hi <= r <= lo
  {
    var w := hi - lo;
    UnitSpan(u, w);
    u * w + lo
  }

  /**
   * The index `choose` reads: `floor(random(0, len - 0.001))`.
   * It is a valid index for every non-empty sequence; for an empty one it
   * is -1 or 0, both out of range, so `choose([])` yields `undefined`.
   */
  function ChooseIndex(len: nat, u: Unit): (i: int)
    ensures len > 0 ==> 0 <= i < len
    ensures len == 0 ==> i == -1 || i == 0
  {
    Uniform(0.0, len as real - 0.001, u).Floor
  }

  /** `choose(xs)`: `None` stands for the `undefined` of an empty list. */
  function Choose<T>(xs: seq<T>, u: Unit): (r: Option<T>)
    ensures r.Some? <==> |xs| > 0
    ensures r.Some? ==> r.value in xs
  {
    var i := ChooseIndex(|xs|, u);
    if 0 <= i < |xs| then Some(xs[i]) else None
  }

  /** Every element of a non-empty list can be chosen. */
  lemma {:induction false} ChooseReachesAll<T>(xs: seq<T>, k: nat)
    requires k < |xs|
    ensures exists u: Unit :: Choose(xs, u) == Some(xs[k])
  {
    var n := |xs| as real;
    DivInUnit(k as real + 0.5, n);
    var u: Unit := (k as real + 0.5) / n;
    ChooseAt(k, n, u);
    assert Uniform(0.0, n - 0.001, u) == u * (n - 0.001);
    assert ChooseIndex(|xs|, u) == k;
    assert Choose(xs, u) == Some(xs[k]);
  }

  lemma ChooseAt(k: nat, n: real, u: Unit)
    requires k as real + 1.0 <= n && u == (k as real + 0.5) / n
    ensures k as real <= u * (n - 0.001) < k as real + 1.0
  {
    assert u * n == k as real + 0.5;
    UnitScale(u, 0.001);
    assert u * (n - 0.001) == u * n - u * 0.001;
  }
}
