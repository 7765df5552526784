/** Capped exponential backoff over int64 nanoseconds (lib/cluster/utils/backoff.go). */
module Backoff {
  import opened Text

  const SECOND := 1_000_000_000

  datatype BackoffConfig = BackoffConfig(maxAttempts: int, initialDelay: int, maxDelay: int)

  predicate Valid(b: BackoffConfig) {
    0 <= b.initialDelay <= INT64_MAX && 0 <= b.maxDelay <= INT64_MAX && IsInt64(b.maxAttempts)
  }

  function Pow2(n: nat): (p: int)
    ensures p >= 1
  {
    if n == 0 then 1 else 2 * Pow2(n - 1)
  }

  /** Arithmetic on `time.Duration` keeps the low 64 bits. */
  function Wrap64(n: int): int {
    (n + 0x8000_0000_0000_0000) % 0x1_0000_0000_0000_0000 - 0x8000_0000_0000_0000
  }

  /** `time.Duration(math.Pow(2, float64(attempt)))`. Powers up to 2^62 convert exactly; what the
      conversion of a larger one yields depends on the platform. */
  function Factor(attempt: nat, platform: nat -> int): int {
    if attempt <= 62 then Pow2(attempt) else platform(attempt)
  }

  function Delay(b: BackoffConfig, attempt: nat, platform: nat -> int): int {
    var delay := Wrap64(Factor(attempt, platform) * b.initialDelay);
    if delay > b.maxDelay then b.maxDelay else delay
  }

  datatype RetryResult = Nil | Cancelled | Exhausted

  /** Attempt k succeeds when `succeeds(k)`; the wait after it ends in the context's cancellation when
      `cancelled(k)`. */
  method Retry(b: BackoffConfig, succeeds: nat -> bool, cancelled: nat -> bool, platform: nat -> int)
    returns (r: RetryResult, calls: nat, delays: seq<int>)
    ensures b.maxAttempts > 0 ==> 1 <= calls <= b.maxAttempts
    ensures b.maxAttempts <= 0 ==> calls == 0 && r == Exhausted
    ensures forall k :: 0 <= k < calls - 1 ==> !succeeds(k) && !cancelled(k)
    ensures calls > 0 ==>
              var last := calls - 1;
              && (r == Nil <==> succeeds(last))
              && (r == Cancelled <==> !succeeds(last) && calls < b.maxAttempts)
              && (r == Cancelled ==> cancelled(last))
              && |delays| == (if r == Cancelled then calls else last)
    ensures forall k :: 0 <= k < |delays| ==> delays[k] == Delay(b, k, platform)
  {
    r, calls, delays := Exhausted, 0, [];
    var attempt := 0;
    while attempt < b.maxAttempts
      invariant 0 <= attempt && (b.maxAttempts > 0 ==> attempt < b.maxAttempts) && calls == attempt
      invariant b.maxAttempts <= 0 ==> attempt == 0
      invariant r == Exhausted && |delays| == attempt
      invariant forall k :: 0 <= k < attempt ==> !succeeds(k) && !cancelled(k)
      invariant forall k :: 0 <= k < |delays| ==> delays[k] == Delay(b, k, platform)
    {
      var ok := succeeds(attempt);
      calls := calls + 1;
      if ok {
        return Nil, calls, delays;
      }
      if attempt < b.maxAttempts - 1 {
        var delay := Wrap64(Factor(attempt, platform) * b.initialDelay);
        if delay > b.maxDelay {
          delay := b.maxDelay;
        }
        delays := delays + [delay];
        if cancelled(attempt) {
          return Cancelled, calls, delays;
        }
        attempt := attempt + 1;
        continue;
      }
      return Exhausted, calls, delays;
    }
  }

  /** fn runs up to and including the first attempt that succeeds, is cancelled, or is the last. */
  lemma CallsAreDetermined(b: BackoffConfig, succeeds: nat -> bool, cancelled: nat -> bool, calls: nat, calls': nat)
    requires 1 <= calls <= b.maxAttempts && 1 <= calls' <= b.maxAttempts
    requires forall k :: 0 <= k < calls - 1 ==> !succeeds(k) && !cancelled(k)
    requires forall k :: 0 <= k < calls' - 1 ==> !succeeds(k) && !cancelled(k)
    requires calls == b.maxAttempts || succeeds(calls - 1) || cancelled(calls - 1)
    requires calls' == b.maxAttempts || succeeds(calls' - 1) || cancelled(calls' - 1)
    ensures calls == calls'
  {
  }

  // ---- the schedule ----

  /** The delay the configuration asks for. */
  function Ideal(b: BackoffConfig, attempt: nat): int {
    var d := Pow2(attempt) * b.initialDelay;
    if d > b.maxDelay then b.maxDelay else d
  }

  lemma {:induction false} Pow2Monotone(m: nat, n: nat)
    requires m <= n
    ensures Pow2(m) <= Pow2(n)
  {
    if m < n {
      Pow2Monotone(m, n - 1);
    }
  }

  lemma Pow2At63()
    ensures Pow2(63) == 0x8000_0000_0000_0000
  {
    assert Pow2(8) == 256;
    assert Pow2(16) == 65536;
    assert Pow2(24) == 0x100_0000;
    assert Pow2(32) == 0x1_0000_0000;
    assert Pow2(40) == 0x100_0000_0000;
    assert Pow2(48) == 0x1_0000_0000_0000;
    assert Pow2(56) == 0x100_0000_0000_0000;
  }

  lemma WrapFits(n: int)
    ensures Wrap64(n) == n <==> IsInt64(n)
    ensures IsInt64(Wrap64(n))
  {
  }

  lemma ScaledMonotone(a: int, b: int, d: nat)
    requires 0 <= a <= b
    ensures a * d <= b * d
  {
  }

  /** The delay after an attempt is the one asked for exactly when the product fits in 64 bits or wraps
      around to a value that is capped all the same. */
  lemma DelayIsIdealIff(b: BackoffConfig, attempt: nat, platform: nat -> int)
    requires Valid(b) && attempt <= 62
    ensures Delay(b, attempt, platform) == Ideal(b, attempt)
            <==> Pow2(attempt) * b.initialDelay <= INT64_MAX
                 || Wrap64(Pow2(attempt) * b.initialDelay) >= b.maxDelay
  {
    var product := Pow2(attempt) * b.initialDelay;
    assert product >= 0;
    WrapFits(product);
  }

  /** If the longest uncapped delay fits in 64 bits, every delay of the run is the one asked for, none
      is shorter than the one before, and none exceeds the cap. */
  lemma ScheduleWithoutWrap(b: BackoffConfig, attempt: nat, platform: nat -> int)
    requires Valid(b) && b.maxAttempts >= 2 && attempt <= b.maxAttempts - 2
    requires Pow2(b.maxAttempts - 2) * b.initialDelay <= INT64_MAX
    ensures Delay(b, attempt, platform) == Ideal(b, attempt)
    ensures 0 <= Ideal(b, attempt) <= b.maxDelay
    ensures attempt > 0 ==> Delay(b, attempt - 1, platform) <= Delay(b, attempt, platform)
  {
    OneDelayWithoutWrap(b, attempt, platform);
    if attempt > 0 {
      OneDelayWithoutWrap(b, attempt - 1, platform);
      ScaledMonotone(Pow2(attempt - 1), Pow2(attempt), b.initialDelay);
    }
  }

  lemma OneDelayWithoutWrap(b: BackoffConfig, attempt: nat, platform: nat -> int)
    requires Valid(b) && b.maxAttempts >= 2 && attempt <= b.maxAttempts - 2
    requires Pow2(b.maxAttempts - 2) * b.initialDelay <= INT64_MAX
    ensures Delay(b, attempt, platform) == Ideal(b, attempt)
    ensures 0 <= Ideal(b, attempt) <= b.maxDelay
  {
    var p := Pow2(attempt);
    Pow2Monotone(attempt, b.maxAttempts - 2);
    ScaledMonotone(p, Pow2(b.maxAttempts - 2), b.initialDelay);
    if b.initialDelay == 0 {
      ZeroDelay(b, attempt, platform);
    } else {
      FittingPowerIsSmall(attempt, b.initialDelay);
      DelayIsIdealIff(b, attempt, platform);
    }
    ScaledMonotone(0, p, b.initialDelay);
  }

  lemma ZeroDelay(b: BackoffConfig, attempt: nat, platform: nat -> int)
    requires Valid(b) && b.initialDelay == 0
    ensures Delay(b, attempt, platform) == Ideal(b, attempt) == 0
  {
    TimesZero(Factor(attempt, platform));
    TimesZero(Pow2(attempt));
  }

  lemma TimesZero(n: int)
    ensures n * 0 == 0
  {
  }

  lemma FittingPowerIsSmall(attempt: nat, d: int)
    requires d >= 1 && Pow2(attempt) * d <= INT64_MAX
    ensures attempt <= 62
  {
    ScaledMonotone(1, d, Pow2(attempt));
    if attempt >= 63 {
      Pow2Monotone(63, attempt);
      Pow2At63();
    }
  }

  /** With a one-second initial delay and thirty-six attempts the last wait wraps to a negative duration,
      that is, to no wait, instead of the cap. */
  lemma LongRetryWraps(b: BackoffConfig, platform: nat -> int)
    requires b == BackoffConfig(36, SECOND, 60 * SECOND)
    ensures Delay(b, 34, platform) < 0 && Ideal(b, 34) == b.maxDelay
  {
    assert Pow2(8) == 256;
    assert Pow2(16) == 65536;
    assert Pow2(24) == 0x100_0000;
    assert Pow2(32) == 0x1_0000_0000;
    assert Pow2(34) == 0x4_0000_0000;
  }

  // ---- the total ----

  function TotalIdeal(b: BackoffConfig, n: nat): int {
    if n == 0 then 0 else TotalIdeal(b, n - 1) + Ideal(b, n - 1)
  }

  function Sum(delays: seq<int>): int {
    if delays == [] then 0 else Sum(delays[..|delays| - 1]) + delays[|delays| - 1]
  }

  /** What a run without wrap-around has slept. */
  lemma {:induction false} SleptIsTotal(b: BackoffConfig, delays: seq<int>, platform: nat -> int)
    requires Valid(b) && b.maxAttempts >= 2 && |delays| <= b.maxAttempts - 1
    requires Pow2(b.maxAttempts - 2) * b.initialDelay <= INT64_MAX
    requires forall k :: 0 <= k < |delays| ==> delays[k] == Delay(b, k, platform)
    ensures Sum(delays) == TotalIdeal(b, |delays|)
  {
    if delays != [] {
      SleptIsTotal(b, delays[..|delays| - 1], platform);
      ScheduleWithoutWrap(b, |delays| - 1, platform);
    }
  }

  /** A geometric prefix of uncapped delays, then the cap: `uncapped` of the first n delays stay at or
      below the cap. */
  lemma {:induction false} TotalClosedForm(b: BackoffConfig, n: nat, uncapped: nat)
    requires Valid(b) && uncapped <= n
    requires uncapped > 0 ==> Pow2(uncapped - 1) * b.initialDelay <= b.maxDelay
    requires uncapped < n ==> Pow2(uncapped) * b.initialDelay > b.maxDelay
    ensures TotalIdeal(b, n) == b.initialDelay * (Pow2(uncapped) - 1) + (n - uncapped) * b.maxDelay
  {
    if uncapped < n {
      TotalClosedForm(b, n - 1, uncapped);
      Pow2Monotone(uncapped, n - 1);
      ScaledMonotone(Pow2(uncapped), Pow2(n - 1), b.initialDelay);
      assert Ideal(b, n - 1) == b.maxDelay;
      assert (n - uncapped) * b.maxDelay == (n - 1 - uncapped) * b.maxDelay + b.maxDelay;
    } else if n > 0 {
      if n > 1 {
        ScaledMonotone(Pow2(n - 2), Pow2(n - 1), b.initialDelay);
      }
      TotalClosedForm(b, n - 1, n - 1);
      Doubling(b.initialDelay, Pow2(n - 1));
    }
  }

  /** Every run of n waits splits in that way: the delays up to some attempt are uncapped and double, and
      from there on they are the cap. */
  lemma {:induction false} TotalSplits(b: BackoffConfig, n: nat) returns (uncapped: nat)
    requires Valid(b)
    ensures uncapped <= n
    ensures uncapped > 0 ==> Pow2(uncapped - 1) * b.initialDelay <= b.maxDelay
    ensures uncapped < n ==> Pow2(uncapped) * b.initialDelay > b.maxDelay
    ensures TotalIdeal(b, n) == b.initialDelay * (Pow2(uncapped) - 1) + (n - uncapped) * b.maxDelay
  {
    if n == 0 {
      uncapped := 0;
    } else {
      uncapped := TotalSplits(b, n - 1);
      if uncapped == n - 1 && Pow2(n - 1) * b.initialDelay <= b.maxDelay {
        uncapped := n;
      }
    }
    TotalClosedForm(b, n, uncapped);
  }

  lemma Doubling(d: int, p: int)
    ensures d * (p - 1) + p * d == d * (2 * p - 1)
  {
  }

  /** Creating the Redis cluster sleeps no more than 243 seconds: 63 seconds of doubling, then three
      minutes at the cap. */
  lemma RedisInitSleeps(b: BackoffConfig, delays: seq<int>, platform: nat -> int)
    requires b == BackoffConfig(10, SECOND, 60 * SECOND)
    requires |delays| == 9 && forall k :: 0 <= k < 9 ==> delays[k] == Delay(b, k, platform)
    ensures Sum(delays) == 243 * SECOND
  {
    assert Pow2(5) == 32 && Pow2(6) == 64 && Pow2(8) == 256;
    SleptIsTotal(b, delays, platform);
    TotalClosedForm(b, 9, 6);
  }
}
