/** The worker's exponential backoff, in the int64 nanoseconds of time.Duration. */
module Backoff {
  import opened Domain

  const BACKOFF_INITIAL := 2_000_000_000
  const BACKOFF_MAX := 30_000_000_000
  const POLL_INTERVAL := 200_000_000

  const TWO_63 := 0x8000_0000_0000_0000
  const TWO_64 := 0x1_0000_0000_0000_0000

  function Pow2(k: nat): (r: nat)
    ensures r >= 1
  {
    if k == 0 then 1 else 2 * Pow2(k - 1)
  }

  function Min(a: int, b: int): int {
    if a <= b then a else b
  }

  /** An integer reduced to the range of int64, as Go's two's complement arithmetic does. */
  function Wrap64(x: int): int {
    (x + TWO_63) % TWO_64 - TWO_63
  }

  predicate FitsInt64(x: int) {
    -TWO_63 <= x < TWO_63
  }

  /** `min(initial << (attempts-2), max)`; Go panics when the shift count is negative. */
  function DelayInt64(initial: int, max: int, attempts: int): Option<int> {
    if attempts < 2 then None
    else Some(Min(Wrap64(initial * Pow2(attempts - 2)), max))
  }

  /** The delay meant: double each time, saturate at `max`. */
  function Saturating(initial: nat, max: nat, attempts: int): int
    requires attempts >= 2
    decreases attempts
  {
    if attempts == 2 then Min(initial, max)
    else Min(2 * Saturating(initial, max, attempts - 1), max)
  }

  lemma {:induction false} Pow2Monotone(i: nat, j: nat)
    requires i <= j
    ensures Pow2(i) <= Pow2(j)
    decreases j
  {
    if i < j {
      Pow2Monotone(i, j - 1);
    }
  }

  /** Wrapping changes exactly the numbers that do not fit. */
  lemma WrapIsIdentityIff(x: int)
    ensures Wrap64(x) == x <==> FitsInt64(x)
  {
  }

  /** Shift-then-cap is the saturating recursion, wherever the shift does not overflow. */
  lemma {:induction false} ShiftIsSaturating(initial: nat, max: nat, attempts: int)
    requires attempts >= 2
    ensures Min(initial * Pow2(attempts - 2), max) == Saturating(initial, max, attempts)
    decreases attempts
  {
    if attempts > 2 {
      ShiftIsSaturating(initial, max, attempts - 1);
      var k := attempts - 3;
      assert Pow2(k + 1) == 2 * Pow2(k);
      assert initial * Pow2(k + 1) == 2 * (initial * Pow2(k));
    }
  }

  /** The int64 delay never exceeds the cap, and without overflow it never shrinks as attempts grow. */
  lemma {:induction false} DelayMonotone(initial: nat, max: nat, a: int, b: int)
    requires 2 <= a <= b
    requires FitsInt64(initial * Pow2(b - 2))
    ensures DelayInt64(initial, max, a).Some? && DelayInt64(initial, max, b).Some?
    ensures DelayInt64(initial, max, a).value <= DelayInt64(initial, max, b).value <= max
  {
    Pow2Monotone(a - 2, b - 2);
    var x, y := initial * Pow2(a - 2), initial * Pow2(b - 2);
    assert 0 <= x <= y by { MulMonotone(initial, Pow2(a - 2), Pow2(b - 2)); }
    WrapIsIdentityIff(x);
    WrapIsIdentityIff(y);
  }

  lemma MulMonotone(c: nat, x: nat, y: nat)
    requires x <= y
    ensures 0 <= c * x <= c * y
  {
  }

  lemma ProductionShift32()
    ensures Pow2(33) == 0x2_0000_0000
    ensures BACKOFF_INITIAL * Pow2(32) < TWO_63 <= BACKOFF_INITIAL * Pow2(33)
  {
    assert Pow2(8) == 0x100;
    assert Pow2(16) == 0x1_0000;
    assert Pow2(24) == 0x100_0000;
    assert Pow2(32) == 0x1_0000_0000;
    assert Pow2(33) == 2 * Pow2(32);
  }

  /** With the production constants the shift overflows int64 exactly from attempt 35 on. */
  lemma OverflowsIffPast34(attempts: int)
    requires attempts >= 2
    ensures FitsInt64(BACKOFF_INITIAL * Pow2(attempts - 2)) <==> attempts <= 34
  {
    ProductionShift32();
    if attempts <= 34 {
      Pow2Monotone(attempts - 2, 32);
      MulMonotone(BACKOFF_INITIAL, Pow2(attempts - 2), Pow2(32));
    } else {
      Pow2Monotone(33, attempts - 2);
      MulMonotone(BACKOFF_INITIAL, Pow2(33), Pow2(attempts - 2));
    }
  }

  /** Hence for every attempt a queue with MAX_ATTEMPTS up to 34 can reach, the code's delay is the
      saturating one, and it is positive. */
  lemma ProductionDelay(attempts: int)
    requires 2 <= attempts <= 34
    ensures DelayInt64(BACKOFF_INITIAL, BACKOFF_MAX, attempts)
         == Some(Saturating(BACKOFF_INITIAL, BACKOFF_MAX, attempts))
    ensures 0 < Saturating(BACKOFF_INITIAL, BACKOFF_MAX, attempts) <= BACKOFF_MAX
  {
    OverflowsIffPast34(attempts);
    WrapIsIdentityIff(BACKOFF_INITIAL * Pow2(attempts - 2));
    ShiftIsSaturating(BACKOFF_INITIAL, BACKOFF_MAX, attempts);
    MulMonotone(BACKOFF_INITIAL, 1, Pow2(attempts - 2));
  }

  /** One attempt more and the code would schedule the retry in the past. */
  lemma NegativeDelayAt35()
    ensures DelayInt64(BACKOFF_INITIAL, BACKOFF_MAX, 35).value < 0
  {
    ProductionShift32();
  }

  predicate DelayAsMeant(attempts: int)
    requires attempts >= 2
  {
    DelayInt64(BACKOFF_INITIAL, BACKOFF_MAX, attempts) == Some(Saturating(BACKOFF_INITIAL, BACKOFF_MAX, attempts))
  }

  lemma {:induction false} CappedDelaysArePositive(attempts: int)
    requires attempts >= 2
    ensures Saturating(BACKOFF_INITIAL, BACKOFF_MAX, attempts) > 0
    decreases attempts
  {
    if attempts > 2 {
      CappedDelaysArePositive(attempts - 1);
    }
  }

  /** So the limit on attempts could be raised to 34, and no further, without any retry's delay going wrong. */
  lemma SafeLimitIff(limit: int)
    ensures (forall attempts :: 2 <= attempts <= limit ==> DelayAsMeant(attempts)) <==> limit <= 34
  {
    forall attempts | 2 <= attempts <= 34
      ensures DelayAsMeant(attempts)
    {
      ProductionDelay(attempts);
    }
    if limit > 34 {
      NegativeDelayAt35();
      CappedDelaysArePositive(35);
      assert !DelayAsMeant(35);
    }
  }

  /** The wait scheduled when an entry's counter becomes `attempts`, which by ProductionDelay is what the code
      computes. */
  function Delay(attempts: int): (d: int)
    requires 2 <= attempts <= MAX_ATTEMPTS
    ensures 0 < d <= BACKOFF_MAX
  {
    ProductionDelay(attempts);
    Saturating(BACKOFF_INITIAL, BACKOFF_MAX, attempts)
  }

  /** All the waits scheduled until the counter reaches `attempts`. */
  function TotalDelay(initial: nat, max: nat, attempts: int): int
    requires attempts >= 1
    decreases attempts
  {
    if attempts == 1 then 0
    else TotalDelay(initial, max, attempts - 1) + Saturating(initial, max, attempts)
  }

  /** Up to the cap the waits form a geometric series. */
  lemma {:induction false} GeometricTotal(initial: nat, max: nat, attempts: int)
    requires attempts >= 1
    requires attempts >= 2 ==> initial * Pow2(attempts - 2) <= max
    ensures TotalDelay(initial, max, attempts) == initial * (Pow2(attempts - 1) - 1)
    decreases attempts
  {
    if attempts >= 2 {
      ShiftIsSaturating(initial, max, attempts);
      if attempts >= 3 {
        Pow2Monotone(attempts - 3, attempts - 2);
        MulMonotone(initial, Pow2(attempts - 3), Pow2(attempts - 2));
      }
      GeometricTotal(initial, max, attempts - 1);
      GeometricStep(initial, Pow2(attempts - 2));
      assert Pow2(attempts - 1) == 2 * Pow2(attempts - 2);
    }
  }

  lemma GeometricStep(c: int, x: int)
    ensures c * (x - 1) + c * x == c * (2 * x - 1)
  {
  }

  /** Five attempts under the production constants wait 2 + 4 + 8 + 16 seconds in all. */
  lemma ProductionTotal()
    ensures TotalDelay(BACKOFF_INITIAL, BACKOFF_MAX, MAX_ATTEMPTS) == 30_000_000_000
  {
    assert Pow2(3) == 8 && Pow2(4) == 16;
    GeometricTotal(BACKOFF_INITIAL, BACKOFF_MAX, MAX_ATTEMPTS);
  }
}
