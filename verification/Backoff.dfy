/** The wait before each retry in http_post_batch: a 32-bit unsigned shift, capped at 60.
    The configuration allows a base of 0..3600 and 0..100 retries. */
module Backoff {
  import opened Numbers
  import opened Powers

  const CAP_SECONDS: nat := 60
  const WORD: nat := 0x1_0000_0000

  function Base(configured: nat): nat {
    if configured == 0 then 1 else configured
  }

  function Capped(seconds: nat): nat {
    if seconds > CAP_SECONDS then CAP_SECONDS else seconds
  }

  /** The schedule the code is written for: double each time, at most a minute. */
  function Intended(configured: nat, attempt: nat): nat {
    Capped(Base(configured) * Pow2(attempt))
  }

  /** What the code sleeps.  C defines the shift for counts below 32 only; `wild` stands
      for whatever a longer shift yields. */
  function Sleep(configured: nat, attempt: nat, wild: nat -> nat): nat {
    if attempt < 32 then Capped((Base(configured) * Pow2(attempt)) % WORD) else Capped(wild(attempt) % WORD)
  }

  lemma {:induction false} Pow2Monotone(a: nat, b: nat)
    requires a <= b
    ensures Pow2(a) <= Pow2(b)
  {
    if a < b {
      Pow2Monotone(a, b - 1);
    }
  }

  lemma Pow2Values()
    ensures Pow2(5) == 32 && Pow2(6) == 64 && Pow2(11) == 2048 && Pow2(12) == 4096
    ensures Pow2(20) == 1048576 && Pow2(21) == 2097152 && Pow2(32) == WORD
  {
    assert Pow2(5) == 32 && Pow2(6) == 64;
    Pow2Sum(6, 5);
    Pow2Sum(6, 6);
    assert Pow2(10) == 1024 by { Pow2Sum(5, 5); }
    Pow2Sum(10, 10);
    Pow2Sum(20, 1);
    assert Pow2(1) == 2;
    Pow2Sum(21, 11);
  }

  /** Scaling by a divisor of the modulus scales the remainder. */
  lemma ScaledRemainder(x: nat, scale: nat, m: nat)
    requires scale > 0 && m > 0
    ensures (x * scale) % (m * scale) == (x % m) * scale
  {
    var q, r := x / m, x % m;
    assert x == q * m + r;
    assert x * scale == q * (m * scale) + r * scale by {
      assert (q * m + r) * scale == q * m * scale + r * scale;
      assert q * m * scale == q * (m * scale);
    }
    assert r * scale < m * scale;
    RemainderIs(x * scale, q, r * scale, m * scale);
  }

  /** For every configurable base and every defined shift, the code sleeps as intended exactly
      when the shifted value is not a multiple of 2^32; when it is, the sleep is zero. */
  lemma SleepIsIntendedUnlessWrapped(configured: nat, attempt: nat, wild: nat -> nat)
    requires configured <= 3600 && attempt < 32
    ensures var base := if configured == 0 then 1 else configured;
      var doubled := base * Pow2(attempt);
      var wrapped := base % Pow2(32 - attempt) == 0;
      && (Sleep(configured, attempt, wild) == (if doubled < 60 then doubled else 60) <==> !wrapped)
      && (Sleep(configured, attempt, wild) == Intended(configured, attempt) <==> !wrapped)
      && (wrapped ==> Sleep(configured, attempt, wild) == 0)
  {
    Pow2Values();
    var base, scale, m := Base(configured), Pow2(attempt), Pow2(32 - attempt);
    Pow2Sum(32 - attempt, attempt);
    if attempt <= 5 {
      Pow2Monotone(attempt, 5);
      Pow2Monotone(21, 32 - attempt);
      ShortShift(base, scale, m);
    } else {
      Pow2Monotone(6, attempt);
      LongShift(base, scale, m);
    }
  }

  lemma ShortShift(base: nat, scale: nat, m: nat)
    requires 1 <= base <= 3600 < m && 1 <= scale <= 32
    ensures (base * scale) % WORD == base * scale && base % m != 0
  {
    ProductMonotone(base, scale, 32);
  }

  lemma LongShift(base: nat, scale: nat, m: nat)
    requires base >= 1 && scale >= 64 && m >= 1 && m * scale == WORD
    ensures Capped(base * scale) == 60 <= base * scale
    ensures Capped((base * scale) % WORD) == if base % m == 0 then 0 else 60
  {
    ScaledRemainder(base, scale, m);
    ProductGrows(base, scale);
    if base % m > 0 {
      ProductGrows(base % m, scale);
    }
  }

  lemma ProductMonotone(a: nat, b: nat, c: nat)
    requires b <= c
    ensures a * b <= a * c
  {
    assert a * c == a * b + a * (c - b);
  }

  lemma ProductGrows(a: nat, b: nat)
    requires a >= 1 && b >= 1
    ensures a * b >= a && a * b >= b
  {
  }

  lemma EarlyAttemptsNeverWrap(configured: nat, attempt: nat)
    requires configured <= 3600 && attempt <= 20
    ensures Base(configured) % Pow2(32 - attempt) != 0
  {
    var base, m := Base(configured), Pow2(32 - attempt);
    assert base < m by {
      Pow2Values();
      Pow2Monotone(12, 32 - attempt);
    }
    RemainderIs(base, 0, base, m);
  }

  /** Every wait before a retry is the one the code is written for. */
  ghost predicate AsIntended(configured: nat, retries: nat, wild: nat -> nat) {
    forall attempt: nat :: attempt < retries ==> Sleep(configured, attempt, wild) == Intended(configured, attempt)
  }

  /** Whether a retry count wraps for a given base shows in the base: the last wait decides. */
  lemma ScheduleIsIntendedExactlyWhen(configured: nat, retries: nat, wild: nat -> nat)
    requires configured <= 3600 && retries <= 32
    ensures AsIntended(configured, retries, wild) <==> retries == 0 || Base(configured) % Pow2(33 - retries) != 0
  {
    if retries > 0 && Base(configured) % Pow2(33 - retries) == 0 {
      SleepIsIntendedUnlessWrapped(configured, retries - 1, wild);
      assert Sleep(configured, retries - 1, wild) != Intended(configured, retries - 1);
    } else {
      forall attempt: nat | attempt < retries
        ensures Sleep(configured, attempt, wild) == Intended(configured, attempt)
      {
        SleepIsIntendedUnlessWrapped(configured, attempt, wild);
        SmallerPowerDivides(Base(configured), 33 - retries, 32 - attempt);
      }
    }
  }

  lemma SmallerPowerDivides(x: nat, small: nat, large: nat)
    requires small <= large
    ensures x % Pow2(large) == 0 ==> x % Pow2(small) == 0
  {
    Pow2Sum(large - small, small);
    if x % Pow2(large) == 0 {
      FactorDivides(x, Pow2(large - small), Pow2(small));
    }
  }

  lemma FactorDivides(x: nat, a: nat, b: nat)
    requires a > 0 && b > 0 && a * b > 0 && x % (a * b) == 0
    ensures x % b == 0
  {
    var q := x / (a * b);
    assert x == q * (a * b);
    assert q * (a * b) == (q * a) * b;
    RemainderIs(x, q * a, 0, b);
  }

  /** The configurations that are safe on every machine: none with more than 32 retries, where the
      shift is undefined, and up to there those whose last wait does not wrap. */
  lemma ConfigurationIsSafeExactlyWhen(configured: nat, retries: nat)
    requires configured <= 3600
    ensures (forall wild :: AsIntended(configured, retries, wild)) <==>
            retries <= 32 && (retries == 0 || Base(configured) % Pow2(33 - retries) != 0)
  {
    if retries <= 32 {
      forall wild: nat -> nat
        ensures AsIntended(configured, retries, wild) <==>
                retries == 0 || Base(configured) % Pow2(33 - retries) != 0
      {
        ScheduleIsIntendedExactlyWhen(configured, retries, wild);
      }
      assert AsIntended(configured, retries, _ => 0) <==>
             retries == 0 || Base(configured) % Pow2(33 - retries) != 0;
    } else {
      ProductGrows(Base(configured), Pow2(32));
      assert Sleep(configured, 32, _ => 0) == 0 < Intended(configured, 32);
      assert !AsIntended(configured, retries, _ => 0);
    }
  }

  /** The retry counts for which every configurable base gives the intended schedule: up to 21. */
  lemma ScheduleSafeUpTo21(retries: nat, wild: nat -> nat)
    ensures (forall base: nat :: base <= 3600 ==> AsIntended(base, retries, wild)) <==> retries <= 21
  {
    if retries <= 21 {
      forall base: nat | base <= 3600
        ensures AsIntended(base, retries, wild)
      {
        if retries > 0 {
          EarlyAttemptsNeverWrap(base, retries - 1);
        }
        ScheduleIsIntendedExactlyWhen(base, retries, wild);
      }
    } else {
      Base2048SleepsZero(wild);
      assert 21 < retries && Sleep(2048, 21, wild) != Intended(2048, 21);
      assert !AsIntended(2048, retries, wild);
    }
  }

  /** Base 2048 on the 22nd wait: 2048 * 2^21 is 2^32, so the code does not wait at all. */
  lemma Base2048SleepsZero(wild: nat -> nat)
    ensures Sleep(2048, 21, wild) == 0 && Intended(2048, 21) == 60
  {
    Pow2Values();
    assert 2048 * 2097152 == WORD;
  }

  /** The waits of one http_post_batch call that retries `n` times. */
  function Waits(configured: nat, n: nat, wild: nat -> nat): seq<nat> {
    seq(n, i requires 0 <= i => Sleep(configured, i, wild))
  }

  function Total(waits: seq<nat>): nat {
    if waits == [] then 0 else Total(waits[..|waits| - 1]) + waits[|waits| - 1]
  }

  /** The waits a call makes never exceed a minute each, whatever wraps.  When none wraps they last
      at least a second each and never get shorter. */
  lemma {:induction false} WaitsOfOneCall(configured: nat, n: nat, wild: nat -> nat)
    ensures var waits := Waits(configured, n, wild);
      && (forall i :: 0 <= i < n ==> waits[i] <= 60)
      && Total(waits) <= 60 * n
      && (AsIntended(configured, n, wild) ==>
            && (forall i :: 0 <= i < n ==> 1 <= waits[i])
            && (forall i :: 0 < i < n ==> waits[i - 1] <= waits[i])
            && n <= Total(waits))
  {
    if n > 0 {
      WaitsOfOneCall(configured, n - 1, wild);
      assert Waits(configured, n, wild)[..n - 1] == Waits(configured, n - 1, wild);
      IntendedWaitGrows(configured, n - 1);
    }
  }

  lemma IntendedWaitGrows(configured: nat, attempt: nat)
    ensures 1 <= Intended(configured, attempt) <= 60
    ensures attempt > 0 ==> Intended(configured, attempt - 1) <= Intended(configured, attempt)
  {
    ProductGrows(Base(configured), Pow2(attempt));
    if attempt > 0 {
      ProductMonotone(Base(configured), Pow2(attempt - 1), Pow2(attempt));
    }
  }
}
