/** The retry delay computed by handleFailure (internal/queue/consumer.go), in nanoseconds.
    The product is exact in float64 for delays below 2^53 ns; the conversion to a Duration is
    the amd64 one, which turns every out-of-range value into the least int64. */
module Backoff {

  const SECOND := 1_000_000_000
  const CAP := 60 * SECOND
  const INT64_LIMIT := 0x8000_0000_0000_0000

  function Pow2(n: nat): (p: nat)
    ensures p >= 1
  {
    if n == 0 then 1 else 2 * Pow2(n - 1)
  }

  function ToDuration(x: int): int {
    if -INT64_LIMIT <= x < INT64_LIMIT then x else -INT64_LIMIT
  }

  function Delay(base: int, retry: nat): int {
    var backoff := ToDuration(base * Pow2(if retry == 0 then 0 else retry - 1));
    if backoff > CAP then CAP else backoff
  }

  /** How long the timer really holds the message: a negative delay fires at once. */
  function Slept(base: int, retry: nat): (d: nat)
    ensures d <= CAP
  {
    var delay := Delay(base, retry);
    if delay < 0 then 0 else delay
  }

  /** The delays after failures 1..m. */
  function TotalSlept(base: int, m: nat): nat {
    if m == 0 then 0 else TotalSlept(base, m - 1) + Slept(base, m)
  }

  lemma {:induction false} Pow2Monotone(a: nat, b: nat)
    requires a <= b
    ensures Pow2(a) <= Pow2(b)
  {
    if a < b { Pow2Monotone(a, b - 1); }
  }

  /** Twice the exponent squares the power. */
  lemma {:induction false} Pow2Doubles(n: nat)
    ensures Pow2(2 * n) == Pow2(n) * Pow2(n)
  {
    if n > 0 {
      Pow2Doubles(n - 1);
      assert Pow2(2 * n) == 2 * (2 * Pow2(2 * n - 2)) && 2 * n - 2 == 2 * (n - 1);
      assert Pow2(n) == 2 * Pow2(n - 1);
    }
  }

  lemma ScaleMonotone(base: nat, a: nat, b: nat)
    requires a <= b
    ensures base * a <= base * b
  {
    assert base * b - base * a == base * (b - a);
  }

  /** The delay is the capped power exactly when the product fits an int64. */
  lemma DelayIsCappedPower(base: nat, retry: nat)
    requires retry >= 1
    ensures Delay(base, retry) == (if base * Pow2(retry - 1) > CAP then CAP else base * Pow2(retry - 1))
            <==> base * Pow2(retry - 1) < INT64_LIMIT
  {
    ScaleMonotone(base, 0, Pow2(retry - 1));
  }

  /** Within one run of M attempts the product stays in range if the last one used does. */
  lemma DelaysStayInRange(base: nat, retry: nat, maxRetries: nat)
    requires 1 <= retry < maxRetries
    requires base * Pow2(maxRetries - 2) < INT64_LIMIT
    ensures base * Pow2(retry - 1) < INT64_LIMIT
  {
    Pow2Monotone(retry - 1, maxRetries - 2);
    ScaleMonotone(base, Pow2(retry - 1), Pow2(maxRetries - 2));
  }

  lemma DelayMonotone(base: nat, a: nat, b: nat)
    requires 1 <= a <= b && base * Pow2(b - 1) < INT64_LIMIT
    ensures 0 <= Delay(base, a) <= Delay(base, b) <= CAP
  {
    Pow2Monotone(a - 1, b - 1);
    ScaleMonotone(base, Pow2(a - 1), Pow2(b - 1));
    ScaleMonotone(base, 0, Pow2(a - 1));
  }

  /** Out of range the delay drops to nothing, so it is not monotone in general. */
  lemma OverflowSleepsNothing(base: nat, retry: nat)
    requires retry >= 1
    ensures base > 0 && Slept(base, retry) == 0 <==> base * Pow2(retry - 1) >= INT64_LIMIT
  {
    ScaleMonotone(base, 1, Pow2(retry - 1));
  }

  /** Whatever the base, m failures hold a message for at most a minute each. */
  lemma {:induction false} TotalSleptAtMost(base: int, m: nat)
    ensures TotalSlept(base, m) <= CAP * m
  {
    if m > 0 { TotalSleptAtMost(base, m - 1); }
  }

  lemma SleptUncapped(base: nat, m: nat)
    requires m >= 1 && base * Pow2(m - 1) <= CAP
    ensures Slept(base, m) == base * Pow2(m - 1)
  {
    ScaleMonotone(base, 0, Pow2(m - 1));
  }

  lemma SumDoubles(base: nat, p: nat)
    ensures base * (p - 1) + base * p == base * (2 * p - 1)
  {
    assert base * (2 * p - 1) == base * (p - 1 + p);
  }

  /** Below the cap the delays of m failures sum to base * (2^m - 1). */
  lemma {:induction false} TotalSleptUncapped(base: nat, m: nat)
    requires m >= 1 ==> base * Pow2(m - 1) <= CAP
    ensures TotalSlept(base, m) == base * (Pow2(m) - 1)
  {
    if m >= 1 {
      if m >= 2 { ScaleMonotone(base, Pow2(m - 2), Pow2(m - 1)); }
      TotalSleptUncapped(base, m - 1);
      SleptUncapped(base, m);
      SumDoubles(base, Pow2(m - 1));
    }
  }

  lemma SomePowers()
    ensures Pow2(3) == 8 && Pow2(4) == 16 && Pow2(35) == 34_359_738_368 && Pow2(36) == 68_719_476_736
  {
    assert Pow2(9) == 2 * Pow2(8) && Pow2(8) == 256;
    Pow2Doubles(9);
    Pow2Doubles(18);
    assert Pow2(36) == 2 * Pow2(35);
  }

  lemma LargePowers()
    ensures Pow2(62) == 4_611_686_018_427_387_904 && Pow2(63) == 9_223_372_036_854_775_808
  {
    assert Pow2(8) == 256;
    Pow2Doubles(8);
    Pow2Doubles(16);
    Pow2Doubles(32);
    assert Pow2(64) == 2 * Pow2(63) && Pow2(63) == 2 * Pow2(62);
  }

  /** In nanoseconds: from 5s on the fifth delay would be 80s and is a minute, as is every later one
      until the product overflows, which a base of 1ns does at the 64th attempt and not before. */
  lemma DelaysInNanoseconds()
    ensures Delay(5_000_000_000, 4) == 40_000_000_000 && Delay(5_000_000_000, 5) == 60_000_000_000
    ensures Delay(1, 36) == 34_359_738_368 && Delay(1, 37) == Delay(1, 63) == 60_000_000_000
    ensures Delay(1, 64) == -9_223_372_036_854_775_808
  {
    SomePowers();
    LargePowers();
  }

  /** The shipped configuration, 5s and at most 3 attempts, sleeps 5s and 10s: never the 20s
      that README.md:215 lists. */
  lemma DefaultDelays()
    ensures Slept(5_000_000_000, 1) == 5_000_000_000 && Slept(5_000_000_000, 2) == 10_000_000_000
    ensures TotalSlept(5_000_000_000, 3 - 1) == 15_000_000_000
  {
    assert Pow2(1) == 2 * Pow2(0);
    TotalSleptUncapped(5 * SECOND, 2);
    TotalSleptUncapped(5 * SECOND, 1);
    assert Pow2(2) == 2 * Pow2(1);
  }
}
