/** The retry schedule: min(base * 2^attempt, cap) on 64-bit durations, and its jitter. */
module Backoff {
  import opened Wrappers

  const MAX_DURATION := 0x7FFF_FFFF_FFFF_FFFF

  /** time.Duration: a signed 64-bit count of nanoseconds. */
  type Duration = x: int | -0x8000_0000_0000_0000 <= x <= 0x7FFF_FFFF_FFFF_FFFF

  /** Two's-complement wrap-around of a 64-bit result. */
  function Wrap64(x: int): Duration {
    (x + 0x8000_0000_0000_0000) % 0x1_0000_0000_0000_0000 - 0x8000_0000_0000_0000
  }

  function Pow2(n: nat): (p: int)
    ensures p >= 1
  {
    if n == 0 then 1 else 2 * Pow2(n - 1)
  }

  function Min(a: int, b: int): int {
    if a < b then a else b
  }

  function Max(a: int, b: int): int {
    if a < b then b else a
  }

  /** base << attempt, saturating. The shifts are the machine's: the left one
      wraps, the right one rounds down. */
  function ScaleBase(attempt: int, base: Duration): Duration {
    if base <= 0 then 0
    else if attempt <= 0 then base
    else if attempt >= 63 then MAX_DURATION
    else if base > MAX_DURATION / Pow2(attempt) then MAX_DURATION
    else Wrap64(base * Pow2(attempt))
  }

  function Delay(attempt: int, base: Duration, cap: Duration): Duration {
    var d := ScaleBase(attempt, base);
    var capped := if d > cap then cap else d;
    if capped < 0 then 0 else capped
  }

  /** The largest float64 below 1, to which a source outside [0, 1) is clamped. */
  const BELOW_ONE: real := 1.0 - 1.0 / 9007199254740992.0

  function Clamp(f: real): real {
    if f < 0.0 then 0.0 else if f >= 1.0 then BELOW_ONE else f
  }

  /** The integer part of f * n. */
  function Portion(f: real, n: nat): (r: int)
    requires 0.0 <= f < 1.0
    ensures 0 <= r && (n > 0 ==> r < n)
  {
    PortionBound(f, n);
    (f * n as real).Floor
  }

  lemma PortionBound(f: real, n: nat)
    requires 0.0 <= f < 1.0
    ensures 0.0 <= f * n as real
    ensures n > 0 ==> f * n as real < n as real
  {
  }

  /** `draw` is what the jitter source yielded; None is the nil source. */
  function Jittered(attempt: int, base: Duration, cap: Duration, draw: Option<real>): (r: Duration)
    ensures 0 <= r <= Delay(attempt, base, cap)
  {
    var d := Delay(attempt, base, cap);
    if draw.None? || d <= 0 then d
    else d / 2 + Portion(Clamp(draw.value), d - d / 2)
  }

  lemma {:induction false} Pow2Monotone(a: nat, b: nat)
    requires a <= b
    ensures Pow2(a) <= Pow2(b)
    decreases b
  {
    if a < b {
      Pow2Monotone(a, b - 1);
    }
  }

  lemma {:induction false} Pow2Adds(a: nat, b: nat)
    ensures Pow2(a + b) == Pow2(a) * Pow2(b)
    decreases b
  {
    if b > 0 {
      Pow2Adds(a, b - 1);
    }
  }

  lemma Pow2Squares(n: nat, p: int)
    requires Pow2(n) == p
    ensures Pow2(2 * n) == p * p
  {
    Pow2Adds(n, n);
  }

  lemma Pow2Of63()
    ensures Pow2(63) == MAX_DURATION + 1
  {
    assert Pow2(3) == 8;
    Pow2Squares(3, 8);
    Pow2Squares(7, 128);
    Pow2Squares(15, 0x8000);
    Pow2Squares(31, 0x8000_0000);
  }

  lemma WrapKeepsWhatFits(x: int)
    requires 0 <= x <= MAX_DURATION
    ensures Wrap64(x) == x
  {
  }

  /** The overflow test is exact: base * 2^attempt fits exactly when it passes. */
  lemma ShiftFits(base: int, p: int)
    requires base > 0 && p >= 1
    ensures base > MAX_DURATION / p <==> base * p > MAX_DURATION
  {
    var q := MAX_DURATION / p;
    assert q * p <= MAX_DURATION < (q + 1) * p;
    if base <= q {
      assert base * p <= q * p;
    } else {
      assert base * p >= (q + 1) * p;
    }
  }

  /** No shift wraps: scaling saturates the mathematical product. */
  lemma ScaleBaseSaturates(attempt: int, base: Duration)
    ensures ScaleBase(attempt, base) == Max(0, Min(base * Pow2(Max(attempt, 0)), MAX_DURATION))
  {
    if base <= 0 {
      NonPositiveProduct(base, Pow2(Max(attempt, 0)));
    } else if attempt >= 63 {
      Pow2Of63();
      Pow2Monotone(63, attempt);
      ProductAtLeast(base, Pow2(attempt));
    } else if attempt > 0 {
      ShiftFits(base, Pow2(attempt));
      ProductAtLeast(base, Pow2(attempt));
      if base * Pow2(attempt) <= MAX_DURATION {
        WrapKeepsWhatFits(base * Pow2(attempt));
      }
    }
  }

  lemma NonPositiveProduct(b: int, p: int)
    requires b <= 0 && p >= 1
    ensures b * p <= 0
  {
  }

  lemma ProductAtLeast(b: int, p: int)
    requires b >= 1 && p >= 1
    ensures b * p >= p && b * p >= b
  {
  }

  /** The schedule over the mathematical integers, for every 64-bit input. */
  lemma DelayIsClampedPower(attempt: int, base: Duration, cap: Duration)
    ensures Delay(attempt, base, cap) == Max(0, Min(base * Pow2(Max(attempt, 0)), cap))
  {
    ScaleBaseSaturates(attempt, base);
  }

  /** A jittered delay is in [d/2, d), so it never exceeds the cap; without a
      source, or for a zero delay, it is the delay itself. */
  lemma JitterRange(attempt: int, base: Duration, cap: Duration, draw: Option<real>)
    ensures var d := Delay(attempt, base, cap);
            var r := Jittered(attempt, base, cap, draw);
            && (draw.Some? && d > 0 ==> d / 2 <= r < d)
            && (draw.None? || d == 0 ==> r == d)
            && r <= Max(0, cap)
  {
    var d := Delay(attempt, base, cap);
    if draw.Some? && d > 0 {
      assert 0 <= Portion(Clamp(draw.value), d - d / 2) < d - d / 2;
    }
  }

  /** A wait of the rung that comes after so many failures: the rung itself
      without a source, the upper half of its range with one. */
  predicate OnRung(wait: int, failed: int, base: Duration, cap: Duration, draw: Option<real>) {
    var rung := Max(0, Min(base * Pow2(Max(failed, 0)), cap));
    && rung / 2 <= wait <= rung
    && (draw.None? ==> wait == rung)
    && (draw.Some? && rung > 0 ==> wait < rung)
  }

  lemma JitteredIsOnRung(failed: int, base: Duration, cap: Duration, draw: Option<real>)
    ensures OnRung(Jittered(failed, base, cap, draw), failed, base, cap, draw)
  {
    DelayIsClampedPower(failed, base, cap);
    JitterRange(failed, base, cap, draw);
  }

  lemma PortionOfFraction(k: nat, n: nat) returns (f: real)
    requires k < n
    ensures 0.0 <= f < 1.0 && Portion(f, n) == k
  {
    f := k as real / n as real;
    FractionTimes(k, n, f);
  }

  lemma FractionTimes(k: nat, n: nat, f: real)
    requires k < n && f == k as real / n as real
    ensures f * n as real == k as real && 0.0 <= f < 1.0
  {
  }

  lemma PortionMonotone(f: real, g: real, n: nat)
    requires 0.0 <= f <= g < 1.0
    ensures Portion(f, n) <= Portion(g, n)
  {
    ProductMonotone(f, g, n as real);
    FloorMonotone(f * n as real, g * n as real);
  }

  lemma FloorMonotone(x: real, y: real)
    requires x <= y
    ensures x.Floor <= y.Floor
  {
  }

  lemma ProductMonotone(f: real, g: real, n: real)
    requires f <= g && n >= 0.0
    ensures f * n <= g * n
  {
  }

  /** The draws spread over the whole of that half: every delay in it comes up
      for some draw, and a higher draw never gives a shorter delay. */
  lemma JitterReachesEveryDelay(failed: int, base: Duration, cap: Duration, wait: int) returns (f: real)
    requires var rung := Max(0, Min(base * Pow2(Max(failed, 0)), cap)); rung / 2 <= wait < rung
    ensures 0.0 <= f < 1.0 && Jittered(failed, base, cap, Some(f)) == wait
  {
    DelayIsClampedPower(failed, base, cap);
    var d := Delay(failed, base, cap);
    f := PortionOfFraction(wait - d / 2, d - d / 2);
  }

  lemma JitterIsMonotone(failed: int, base: Duration, cap: Duration, f: real, g: real)
    requires 0.0 <= f <= g < 1.0
    ensures Jittered(failed, base, cap, Some(f)) <= Jittered(failed, base, cap, Some(g))
  {
    var d := Delay(failed, base, cap);
    PortionMonotone(Clamp(f), Clamp(g), d - d / 2);
  }

  lemma Doubling(b: int, p: int)
    ensures b * (2 * p) == 2 * (b * p)
  {
  }

  /** With a positive base and cap the schedule never shortens, doubles until
      the cap, and stays there. */
  lemma ScheduleShape(attempt: nat, base: Duration, cap: Duration)
    requires base > 0 && cap > 0
    ensures Delay(attempt + 1, base, cap) == Min(2 * Delay(attempt, base, cap), cap)
    ensures 0 < Delay(attempt, base, cap) <= Delay(attempt + 1, base, cap)
  {
    DelayIsClampedPower(attempt, base, cap);
    DelayIsClampedPower(attempt + 1, base, cap);
    ProductAtLeast(base, Pow2(attempt));
    Doubling(base, Pow2(attempt));
  }
}
