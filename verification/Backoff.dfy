/** Backoff and jitter for consumer retries, over the reals. */
module Backoff {
  import opened Wrappers

  datatype Policy = Policy(base: real, factor: real, jitter: real, cap: real)

  const DEFAULT := Policy(10_000.0, 3.0, 0.2, 1_800_000.0)

  function Pow(x: real, n: nat): real {
    if n == 0 then 1.0 else x * Pow(x, n - 1)
  }

  function Nominal(p: Policy, attempt: int): real {
    p.base * Pow(p.factor, (if attempt > 1 then attempt else 1) - 1)
  }

  function Max(a: real, b: real): real {
    if a > b then a else b
  }

  function Min(a: real, b: real): real {
    if a < b then a else b
  }

  /** Half up, as Math.round does. */
  function Round(x: real): int {
    (x + 0.5).Floor
  }

  /** The delay before the cap; `draw` is the random number, at least 0 and below 1. */
  function Jittered(p: Policy, attempt: int, draw: real): real {
    var nominal := Nominal(p, attempt);
    Max(0.0, nominal + nominal * p.jitter * (draw * 2.0 - 1.0))
  }

  function Delay(p: Policy, attempt: int, draw: real, retryAfter: Option<real>): real {
    var delay := Min(Jittered(p, attempt, draw), p.cap);
    if retryAfter.Some? && retryAfter.value > delay then retryAfter.value else delay
  }

  function ComputeBackoff(p: Policy, attempt: int, draw: real, retryAfter: Option<real>): int {
    Round(Delay(p, attempt, draw, retryAfter))
  }

  predicate IsDraw(u: real) {
    0.0 <= u < 1.0
  }

  predicate Sane(p: Policy) {
    p.base > 0.0 && p.factor > 0.0 && 0.0 <= p.jitter <= 1.0 && p.cap >= 0.0
  }

  // ---------------------------------------------------------------------------------

  lemma {:induction false} PowPositive(x: real, n: nat)
    requires x > 0.0
    ensures Pow(x, n) > 0.0
  {
    if n > 0 {
      PowPositive(x, n - 1);
      Positive(x, Pow(x, n - 1));
    }
  }

  lemma Positive(a: real, b: real)
    requires a > 0.0 && b > 0.0
    ensures a * b > 0.0
  {
  }

  lemma Scaled(c: real, a: real, b: real)
    requires c > 0.0
    ensures c * a <= c * b <==> a <= b
  {
    if a <= b { Product(c, b - a); } else { Positive(c, a - b); }
  }

  lemma Product(c: real, d: real)
    requires c >= 0.0 && d >= 0.0
    ensures c * d >= 0.0
  {
  }

  /** The multiple of the nominal delay that a draw gives. */
  function Spread(j: real, u: real): real {
    1.0 + j * (u * 2.0 - 1.0)
  }

  lemma JitteredIs(p: Policy, attempt: int, u: real)
    requires Sane(p) && IsDraw(u)
    ensures Nominal(p, attempt) > 0.0 && Spread(p.jitter, u) >= 0.0
    ensures Jittered(p, attempt, u) == Nominal(p, attempt) * Spread(p.jitter, u)
  {
    var e := (if attempt > 1 then attempt else 1) - 1;
    PowPositive(p.factor, e);
    Positive(p.base, Pow(p.factor, e));
    var n := Nominal(p, attempt);
    assert p.jitter * (u * 2.0 - 1.0) >= -1.0 by {
      Product(p.jitter, u);
      assert p.jitter * (u * 2.0 - 1.0) == p.jitter * u * 2.0 - p.jitter;
    }
    assert n * Spread(p.jitter, u) == n + n * p.jitter * (u * 2.0 - 1.0);
    Product(n, Spread(p.jitter, u));
  }

  lemma NextNominal(p: Policy, attempt: int)
    requires attempt >= 1
    ensures Nominal(p, attempt + 1) == Nominal(p, attempt) * p.factor
  {
    var q := Pow(p.factor, attempt - 1);
    assert Pow(p.factor, attempt) == p.factor * q;
    assert p.base * (p.factor * q) == p.base * q * p.factor;
  }

  /** One attempt against the next, for given draws. */
  lemma NextCompared(p: Policy, attempt: int, u: real, v: real)
    requires Sane(p) && attempt >= 1 && IsDraw(u) && IsDraw(v)
    ensures Jittered(p, attempt, u) <= Jittered(p, attempt + 1, v) <==>
      Spread(p.jitter, u) <= p.factor * Spread(p.jitter, v)
  {
    JitteredIs(p, attempt, u);
    JitteredIs(p, attempt + 1, v);
    NextNominal(p, attempt);
    var n := Nominal(p, attempt);
    assert Jittered(p, attempt + 1, v) == n * (p.factor * Spread(p.jitter, v));
    Scaled(n, Spread(p.jitter, u), p.factor * Spread(p.jitter, v));
  }

  /** The condition under which no draw makes a later delay shorter. */
  predicate Growing(p: Policy) {
    p.factor * (1.0 - p.jitter) >= 1.0 + p.jitter
  }

  lemma SpreadBounds(j: real, u: real)
    requires 0.0 <= j && IsDraw(u)
    ensures 1.0 - j <= Spread(j, u) <= 1.0 + j
  {
    Product(j, u);
    Product(j, 1.0 - u);
    assert j * (u * 2.0 - 1.0) == j * u * 2.0 - j;
    assert j * (1.0 - u) == j - j * u;
  }

  ghost predicate NeverShorter(p: Policy, attempt: int) {
    forall u, v :: IsDraw(u) && IsDraw(v) ==> Jittered(p, attempt, u) <= Jittered(p, attempt + 1, v)
  }

  lemma GrowingSuffices(p: Policy, attempt: int, u: real, v: real)
    requires Sane(p) && Growing(p) && attempt >= 1 && IsDraw(u) && IsDraw(v)
    ensures Jittered(p, attempt, u) <= Jittered(p, attempt + 1, v)
  {
    NextCompared(p, attempt, u, v);
    SpreadBounds(p.jitter, u);
    SpreadBounds(p.jitter, v);
    Outweighs(p.factor, 1.0 - p.jitter, 1.0 + p.jitter, Spread(p.jitter, u), Spread(p.jitter, v));
  }

  lemma Outweighs(factor: real, least: real, most: real, a: real, b: real)
    requires factor > 0.0 && factor * least >= most && a <= most && least <= b
    ensures a <= factor * b
  {
    Scaled(factor, least, b);
  }

  lemma ShorterExists(p: Policy, attempt: int) returns (u: real, v: real)
    requires Sane(p) && !Growing(p) && attempt >= 1
    ensures IsDraw(u) && IsDraw(v) && Jittered(p, attempt, u) > Jittered(p, attempt + 1, v)
  {
    v := 0.0;
    u := ShorterDraw(p);
    NextCompared(p, attempt, u, v);
    assert Spread(p.jitter, v) == 1.0 - p.jitter;
  }

  /** Jittered delays never decrease from one attempt to the next, whatever the draws, if and only if
      the factor outweighs the jitter. */
  lemma NeverShorterExactly(p: Policy, attempt: int)
    requires Sane(p) && attempt >= 1
    ensures NeverShorter(p, attempt) <==> Growing(p)
  {
    if Growing(p) {
      forall u, v | IsDraw(u) && IsDraw(v) ensures Jittered(p, attempt, u) <= Jittered(p, attempt + 1, v) {
        GrowingSuffices(p, attempt, u, v);
      }
    } else {
      var u, v := ShorterExists(p, attempt);
    }
  }

  /** A draw whose delay is longer than the shortest of the next attempt. */
  lemma ShorterDraw(p: Policy) returns (u: real)
    requires Sane(p) && !Growing(p)
    ensures IsDraw(u) && Spread(p.jitter, u) > p.factor * (1.0 - p.jitter)
  {
    var least := p.factor * (1.0 - p.jitter);
    if p.jitter == 0.0 {
      u := 0.0;
      assert Spread(p.jitter, u) == 1.0;
    } else if least < 1.0 {
      u := 0.5;
      assert p.jitter * (u * 2.0 - 1.0) == 0.0;
    } else {
      var x := (least - 1.0) / p.jitter;
      assert x * p.jitter == least - 1.0;
      assert 0.0 <= x < 1.0 by {
        Scaled(p.jitter, 0.0, x);
        Scaled(p.jitter, 1.0, x);
      }
      u := (x + 3.0) / 4.0;
      assert u * 2.0 - 1.0 == (x + 1.0) / 2.0;
      assert (x + 1.0) / 2.0 > x;
      Scaled(p.jitter, (x + 1.0) / 2.0, x);
    }
  }

  lemma RoundMonotone(a: real, b: real)
    requires a <= b
    ensures Round(a) <= Round(b)
  {
  }

  /** Between two delays, once both are capped, overridden by a longer `after` and rounded. */
  predicate Between(least: real, most: real, cap: real, after: Option<real>, delay: int) {
    if after.None? then Round(Min(least, cap)) <= delay <= Round(Min(most, cap))
    else Round(Max(Min(least, cap), after.value)) <= delay <= Round(Max(Min(most, cap), after.value))
  }

  /** Cap, override and rounding keep the order. */
  lemma Clamped(p: Policy, n: nat, u: real, after: Option<real>, least: real, most: real)
    requires least <= Jittered(p, n, u) <= most
    ensures Between(least, most, p.cap, after, ComputeBackoff(p, n, u, after))
  {
  }

  lemma Sandwich(n: real, j: real, spread: real, least: real, most: real)
    requires n > 0.0 && 1.0 - j <= spread <= 1.0 + j && least == n * (1.0 - j) && most == n * (1.0 + j)
    ensures least <= n * spread <= most
  {
    Scaled(n, 1.0 - j, spread);
    Scaled(n, spread, 1.0 + j);
  }

  /** Before cap, override and rounding, the delay of attempt `n` is the base times the factor to the
      power n - 1, give or take the jitter. */
  lemma JitteredBetween(p: Policy, n: nat, u: real, least: real, most: real)
    requires Sane(p) && IsDraw(u) && n >= 1
    requires least == p.base * Pow(p.factor, n - 1) * (1.0 - p.jitter)
    requires most == p.base * Pow(p.factor, n - 1) * (1.0 + p.jitter)
    ensures least <= Jittered(p, n, u) <= most
  {
    JitteredIs(p, n, u);
    SpreadBounds(p.jitter, u);
    Sandwich(Nominal(p, n), p.jitter, Spread(p.jitter, u), least, most);
  }

  /** So the delay of attempt `n` lies between the two, each capped, overridden where the error asks for a
      longer one, and rounded. */
  lemma DelayBetween(p: Policy, n: nat, u: real, after: Option<real>, least: real, most: real)
    requires Sane(p) && IsDraw(u) && n >= 1
    requires least == p.base * Pow(p.factor, n - 1) * (1.0 - p.jitter)
    requires most == p.base * Pow(p.factor, n - 1) * (1.0 + p.jitter)
    ensures Between(least, most, p.cap, after, ComputeBackoff(p, n, u, after))
  {
    JitteredBetween(p, n, u, least, most);
    Clamped(p, n, u, after, least, most);
  }

  /** Without an override the delay lies between zero and the cap. */
  lemma Capped(p: Policy, attempt: int, u: real)
    requires Sane(p) && IsDraw(u)
    ensures 0 <= ComputeBackoff(p, attempt, u, None) <= Round(p.cap)
  {
    JitteredIs(p, attempt, u);
    Product(Nominal(p, attempt), Spread(p.jitter, u));
    RoundMonotone(0.0, Delay(p, attempt, u, None));
    RoundMonotone(Delay(p, attempt, u, None), p.cap);
  }

  /** Without an override the result never decreases with the attempt and stays between zero and the cap. */
  lemma Monotone(p: Policy, attempt: int, u: real, v: real)
    requires Sane(p) && Growing(p) && IsDraw(u) && IsDraw(v)
    ensures attempt >= 1 ==> ComputeBackoff(p, attempt, u, None) <= ComputeBackoff(p, attempt + 1, v, None)
    ensures 0 <= ComputeBackoff(p, attempt, u, None) <= Round(p.cap)
  {
    Capped(p, attempt, u);
    if attempt >= 1 {
      GrowingSuffices(p, attempt, u, v);
      RoundMonotone(Delay(p, attempt, u, None), Delay(p, attempt + 1, v, None));
    }
  }

  /** With an override the result is the rounded larger of the two. */
  lemma Override(p: Policy, attempt: int, u: real, after: real)
    ensures ComputeBackoff(p, attempt, u, Some(after)) == Round(Max(Delay(p, attempt, u, None), after))
  {
  }

  lemma {:induction false} PowGrows(x: real, m: nat, n: nat)
    requires x >= 1.0 && m <= n
    ensures 1.0 <= Pow(x, m) <= Pow(x, n)
    decreases n
  {
    if m < n {
      PowGrows(x, m, n - 1);
      Product(x - 1.0, Pow(x, n - 1));
    } else if n > 0 {
      PowGrows(x, n - 1, n - 1);
      Product(x - 1.0, Pow(x, n - 1));
    }
  }

  /** With the defaults the delay is the cap, whatever the draw, exactly from the sixth attempt on. */
  lemma DefaultsReachCapExactly(attempt: int, u: real)
    requires IsDraw(u)
    ensures ComputeBackoff(DEFAULT, attempt, u, None) == 1_800_000 <==> attempt >= 6
  {
    var e := (if attempt > 1 then attempt else 1) - 1;
    JitteredIs(DEFAULT, attempt, u);
    SpreadBounds(0.2, u);
    assert Pow(3.0, 1) == 3.0 && Pow(3.0, 2) == 9.0;
    assert Pow(3.0, 3) == 27.0;
    assert Pow(3.0, 4) == 81.0;
    assert Pow(3.0, 5) == 243.0;
    var n := Nominal(DEFAULT, attempt);
    if attempt >= 6 {
      PowGrows(3.0, 5, e);
      Scaled(n, 0.8, Spread(0.2, u));
      assert Delay(DEFAULT, attempt, u, None) == 1_800_000.0;
    } else {
      PowGrows(3.0, e, 4);
      Scaled(n, Spread(0.2, u), 1.2);
      RoundMonotone(Delay(DEFAULT, attempt, u, None), 972_000.0);
    }
  }
}
