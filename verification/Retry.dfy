/** Exponential backoff over retryable failures. Durations are in nanoseconds. */
module Retry {
  import opened Wrappers
  import opened Choice

  const U32_MAX: nat := 0xFFFF_FFFF
  const DURATION_MAX: nat := 0xFFFF_FFFF_FFFF_FFFF * 1_000_000_000 + 999_999_999
  const MAX_BACKOFF: nat := 60_000_000_000

  type U32 = n: nat | n <= U32_MAX
  type Duration = n: nat | n <= DURATION_MAX

  datatype RetryPolicy = RetryPolicy(maxRetries: U32, backoffBase: Duration)

  function Pow2(k: nat): nat {
    if k == 0 then 1 else 2 * Pow2(k - 1)
  }

  function Min(a: nat, b: nat): nat {
    if a <= b then a else b
  }

  /** The wait before retry `k`: saturating power, saturating product, then the ceiling. */
  function Delay(base: Duration, k: nat): Duration {
    Min(Min(base * Min(Pow2(k), U32_MAX), DURATION_MAX), MAX_BACKOFF)
  }

  /** `attempts` is where a run over `outcomes` stops: after retryable failures only, no more than allowed. */
  predicate StopsAfter<T(!new)>(policy: RetryPolicy, outcomes: nat -> Result<T, ClassifyError>, attempts: nat) {
    && 1 <= attempts <= policy.maxRetries + 1
    && (forall i: nat :: i < attempts - 1 ==> Retries(outcomes(i)))
    && (attempts == policy.maxRetries + 1 || !Retries(outcomes(attempts - 1)))
  }

  predicate Retries<T>(outcome: Result<T, ClassifyError>) {
    outcome.Err? && IsRetryable(outcome.error)
  }

  /** The retry loop. Attempt `i` ends in `outcomes(i)`. */
  method Run<T(!new)>(policy: RetryPolicy, outcomes: nat -> Result<T, ClassifyError>)
    returns (outcome: Result<T, ClassifyError>, attempts: nat, slept: seq<Duration>)
    ensures StopsAfter(policy, outcomes, attempts)
    ensures outcome == outcomes(attempts - 1)
    ensures |slept| == attempts - 1 && forall k :: 0 <= k < |slept| ==> slept[k] == Delay(policy.backoffBase, k)
  {
    var retries := 0;
    slept := [];
    while true
      invariant retries <= policy.maxRetries && |slept| == retries
      invariant forall i: nat :: i < retries ==> Retries(outcomes(i))
      invariant forall k :: 0 <= k < |slept| ==> slept[k] == Delay(policy.backoffBase, k)
      decreases policy.maxRetries - retries
    {
      outcome := outcomes(retries);
      if outcome.Err? && IsRetryable(outcome.error) && retries < policy.maxRetries {
        var delay := Delay(policy.backoffBase, retries);
        slept := slept + [delay];
        retries := retries + 1;
      } else {
        return outcome, retries + 1, slept;
      }
    }
  }

  /** The stopping point is unique: policy and outcomes decide how often the backend is asked. */
  lemma StopsOnce<T(!new)>(policy: RetryPolicy, outcomes: nat -> Result<T, ClassifyError>, a: nat, b: nat)
    requires StopsAfter(policy, outcomes, a) && StopsAfter(policy, outcomes, b)
    ensures a == b
  {
    var x: nat, y: nat := a - 1, b - 1;
    assert a < b ==> Retries(outcomes(x));
    assert b < a ==> Retries(outcomes(y));
  }

  lemma {:induction false} Pow2Grows(k: nat, m: nat)
    requires k <= m
    ensures 1 <= Pow2(k) <= Pow2(m)
    decreases m
  {
    if k < m {
      Pow2Grows(k, m - 1);
    } else if k > 0 {
      Pow2Grows(k - 1, m - 1);
    }
  }

  lemma Pow2At32()
    ensures Pow2(31) == 0x8000_0000 && Pow2(32) == 0x1_0000_0000
  {
    assert Pow2(8) == 256;
    assert Pow2(16) == 65536;
    assert Pow2(24) == 0x100_0000;
    assert Pow2(30) == 0x4000_0000;
  }

  /** Waits never shrink and never exceed a minute. */
  lemma DelaysGrow(base: Duration, k: nat)
    ensures Delay(base, k) <= Delay(base, k + 1) <= MAX_BACKOFF
  {
    Pow2Grows(k, k + 1);
    MulGrows(base, Min(Pow2(k), U32_MAX), Min(Pow2(k + 1), U32_MAX));
    ClampGrows(base * Min(Pow2(k), U32_MAX), base * Min(Pow2(k + 1), U32_MAX));
  }

  lemma MulGrows(base: nat, f: nat, g: nat)
    requires f <= g
    ensures base * f <= base * g
  {
    assert base * g == base * f + base * (g - f);
  }

  lemma ClampGrows(x: nat, y: nat)
    requires x <= y
    ensures Min(Min(x, DURATION_MAX), MAX_BACKOFF) <= Min(Min(y, DURATION_MAX), MAX_BACKOFF) <= MAX_BACKOFF
  {
  }

  /** The wait the documentation names: the base doubled each time, up to a minute. */
  function Doubled(base: Duration, k: nat): nat {
    Min(base * Pow2(k), MAX_BACKOFF)
  }

  lemma DelayBeforeSaturation(base: Duration, k: nat)
    requires k < 32
    ensures Delay(base, k) == Doubled(base, k)
  {
    Pow2At32();
    Pow2Grows(k, 31);
  }

  lemma DelaySaturated(base: Duration, k: nat)
    requires k >= 32
    ensures Delay(base, k) == Min(base * U32_MAX, MAX_BACKOFF)
    ensures base >= 14 ==> Delay(base, k) == Doubled(base, k) == MAX_BACKOFF
    ensures base == 0 ==> Delay(base, k) == Doubled(base, k) == 0
  {
    Pow2At32();
    Pow2Grows(32, k);
    if base >= 14 {
      assert base * U32_MAX >= 14 * U32_MAX;
      MulGrows(base, U32_MAX, Pow2(k));
    }
  }

  /** The exponent saturates at 32 bits: bases from 1 to 13 nanoseconds stop doubling below the ceiling. */
  lemma DoublesExactly(base: Duration)
    ensures (forall k: nat :: Delay(base, k) == Doubled(base, k)) <==> base == 0 || base >= 14
  {
    if base == 0 || base >= 14 {
      forall k: nat ensures Delay(base, k) == Doubled(base, k) {
        if k < 32 {
          DelayBeforeSaturation(base, k);
        } else {
          DelaySaturated(base, k);
        }
      }
    } else {
      Pow2At32();
      DelaySaturated(base, 32);
      assert base * U32_MAX <= 13 * U32_MAX;
      assert Delay(base, 32) != Doubled(base, 32);
    }
  }

  // ---- by the numbers ------------------------------------------------------------------------

  /** What is asked again: no connection, no answer in time, throttling, and any 5xx; nothing else. */
  lemma RetriedByCode(e: ClassifyError)
    ensures IsRetryable(e) <==>
            match e
            case Transport => true
            case Timeout => true
            case Status(code) => code == 429 || code / 100 == 5
            case InvalidResponse => false
            case UnknownChoice(_) => false
  {
  }

  /** Whether attempt `i` is followed by another. */
  predicate GoesOn<T(!new)>(policy: RetryPolicy, outcomes: nat -> Result<T, ClassifyError>, i: nat) {
    outcomes(i).Err? && IsRetryable(outcomes(i).error) && i < policy.maxRetries
  }

  /** A run stops after the first attempt that no other follows. */
  lemma StopsAtFirst<T(!new)>(policy: RetryPolicy, outcomes: nat -> Result<T, ClassifyError>, attempts: nat)
    requires attempts >= 1
    ensures StopsAfter(policy, outcomes, attempts) <==>
            (forall i: nat :: i < attempts - 1 ==> GoesOn(policy, outcomes, i)) && !GoesOn(policy, outcomes, attempts - 1)
  {
    if StopsAfter(policy, outcomes, attempts) {
      forall i: nat | i < attempts - 1 ensures GoesOn(policy, outcomes, i) {
        assert Retries(outcomes(i));
      }
    }
    if (forall i: nat :: i < attempts - 1 ==> GoesOn(policy, outcomes, i)) && !GoesOn(policy, outcomes, attempts - 1) {
      forall i: nat | i < attempts - 1 ensures Retries(outcomes(i)) {
        assert GoesOn(policy, outcomes, i);
      }
      if attempts >= 2 {
        var last: nat := attempts - 2;
        assert GoesOn(policy, outcomes, last);
      }
    }
  }

  /** The wait in nanoseconds: the base doubled per retry up to 2^32 - 1 times, and a minute at most. */
  lemma DelayByNumbers(base: Duration, k: nat)
    ensures base * Min(Pow2(k), 4_294_967_295) <= 60_000_000_000 ==> Delay(base, k) == base * Min(Pow2(k), 4_294_967_295)
    ensures base * Min(Pow2(k), 4_294_967_295) > 60_000_000_000 ==> Delay(base, k) == 60_000_000_000
    ensures Pow2(0) == 1 && Pow2(k + 1) == 2 * Pow2(k)
  {
  }
}
