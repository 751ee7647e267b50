/** `src/retry.rs`: one asynchronous operation, repeated after retriable
    failures with full-jitter exponential backoff. */
module Retry {
  import opened Basics

  const BASE_BACKOFF_MS: nat := 50
  const MAX_BACKOFF_MS: nat := 1_000

  datatype RetryStopReason = NonRetriable | Exhausted

  datatype RetryFailure<+E> = RetryFailure(error: E, attempts: nat, reason: RetryStopReason)

  type Outcome<+T, +E> = Result<(T, nat), RetryFailure<E>>

  function MaxAttempts(maxRetries: usize): (n: nat)
    ensures n >= 1
  {
    SaturatingAdd(maxRetries, 1, USIZE_MAX)
  }

  /** What the retry loop reports when attempt `attempt` is the next to run.
      `operation(k)` is the answer that the k-th attempt receives. */
  function OutcomeFrom<T, E>(operation: nat -> Result<T, E>, isRetriable: E -> bool, maxAttempts: nat, attempt: nat)
    : Outcome<T, E>
    decreases maxAttempts - attempt
  {
    match operation(attempt)
    case Ok(value) => Ok((value, attempt))
    case Err(error) =>
      if !isRetriable(error) then Err(RetryFailure(error, attempt, NonRetriable))
      else if attempt >= maxAttempts then Err(RetryFailure(error, attempt, Exhausted))
      else OutcomeFrom(operation, isRetriable, maxAttempts, attempt + 1)
  }

  function AttemptsOf<T, E>(r: Outcome<T, E>): nat {
    match r
    case Ok((_, attempts)) => attempts
    case Err(failure) => failure.attempts
  }

  /** Attempt `k` failed in a way that asks for another attempt. */
  ghost predicate RetriableFailure<T, E>(operation: nat -> Result<T, E>, isRetriable: E -> bool, k: nat) {
    operation(k).Err? && isRetriable(operation(k).error)
  }

  /** The report `r` names the first attempt, from `first` on, that was not a
      retriable failure, or the last permitted one; its answer; and why the
      loop stopped there. */
  ghost predicate ReportsFirstStop<T(!new), E(!new)>(
    operation: nat -> Result<T, E>, isRetriable: E -> bool, maxAttempts: nat, first: nat, r: Outcome<T, E>)
  {
    var n := AttemptsOf(r);
    && first <= n <= maxAttempts
    && (forall k :: first <= k < n ==> RetriableFailure(operation, isRetriable, k))
    && match r
       case Ok((value, _)) => operation(n) == Ok(value)
       case Err(f) =>
         && operation(n) == Err(f.error)
         && (f.reason == NonRetriable <==> !isRetriable(f.error))
         && (f.reason == Exhausted ==> n == maxAttempts)
  }

  /** A report is the loop's report exactly when it describes the first stop. */
  lemma {:induction false} OutcomeIsFirstStop<T(!new), E(!new)>(
    operation: nat -> Result<T, E>, isRetriable: E -> bool, maxAttempts: nat, first: nat, r: Outcome<T, E>)
    requires first <= maxAttempts
    ensures r == OutcomeFrom(operation, isRetriable, maxAttempts, first)
            <==> ReportsFirstStop(operation, isRetriable, maxAttempts, first, r)
    decreases maxAttempts - first
  {
    if RetriableFailure(operation, isRetriable, first) && first < maxAttempts {
      OutcomeIsFirstStop(operation, isRetriable, maxAttempts, first + 1, r);
      if ReportsFirstStop(operation, isRetriable, maxAttempts, first, r) {
        assert AttemptsOf(r) != first;
      }
    } else if ReportsFirstStop(operation, isRetriable, maxAttempts, first, r) {
      assert AttemptsOf(r) > first ==> RetriableFailure(operation, isRetriable, first);
    }
  }

  /** The retry loop; `delays` lists the sleeps it takes, in order. */
  method RetryWithBackoff<T, E>(
    maxRetries: usize, operation: nat -> Result<T, E>, isRetriable: E -> bool, backoff: nat -> nat)
    returns (r: Outcome<T, E>, delays: seq<nat>)
    ensures r == OutcomeFrom(operation, isRetriable, MaxAttempts(maxRetries), 1)
    ensures |delays| + 1 == AttemptsOf(r) <= MaxAttempts(maxRetries)
    ensures forall i :: 0 <= i < |delays| ==> delays[i] == backoff(i + 1)
  {
    var maxAttempts := MaxAttempts(maxRetries);
    var attempt := 1;
    delays := [];
    while true
      invariant 1 <= attempt <= maxAttempts
      invariant |delays| == attempt - 1
      invariant forall i :: 0 <= i < |delays| ==> delays[i] == backoff(i + 1)
      invariant OutcomeFrom(operation, isRetriable, maxAttempts, 1)
             == OutcomeFrom(operation, isRetriable, maxAttempts, attempt)
      decreases maxAttempts - attempt
    {
      match operation(attempt) {
        case Ok(value) =>
          return Ok((value, attempt)), delays;
        case Err(error) =>
          if !isRetriable(error) {
            return Err(RetryFailure(error, attempt, NonRetriable)), delays;
          }
          if attempt == maxAttempts {
            return Err(RetryFailure(error, attempt, Exhausted)), delays;
          }
          delays := delays + [backoff(attempt)];
          attempt := attempt + 1;
      }
    }
  }

  // ---- backoff arithmetic ----

  /** The largest delay that retry `retryNumber` may draw, in saturating u64 arithmetic. */
  function JitterCapMs(retryNumber: nat): nat {
    var exponent := Min(SaturatingSub(retryNumber, 1), 63);
    Min(SaturatingMul(BASE_BACKOFF_MS, Min(Pow2(exponent), U64_MAX), U64_MAX), MAX_BACKOFF_MS)
  }

  lemma Pow2Of63()
    ensures Pow2(63) == 0x8000_0000_0000_0000
  {
    assert Pow2(8) == 256;
    assert Pow2(16) == 0x1_0000 by { assert Pow2(12) == 4096; }
    assert Pow2(24) == 0x100_0000 by { assert Pow2(20) == 0x10_0000; }
    assert Pow2(32) == 0x1_0000_0000 by { assert Pow2(28) == 0x1000_0000; }
    assert Pow2(40) == 0x100_0000_0000 by { assert Pow2(36) == 0x10_0000_0000; }
    assert Pow2(48) == 0x1_0000_0000_0000 by { assert Pow2(44) == 0x1000_0000_0000; }
    assert Pow2(56) == 0x100_0000_0000_0000 by { assert Pow2(52) == 0x10_0000_0000_0000; }
    assert Pow2(60) == 0x1000_0000_0000_0000;
  }

  /** No saturation is ever visible: from the first retry on, the cap is the
      plain doubling sequence cut off at one second. */
  lemma JitterCapExact(k: nat)
    requires k >= 1
    ensures JitterCapMs(k) == Min(50 * Pow2(k - 1), 1_000)
  {
    Pow2Of63();
    assert Pow2(5) == 32;
    if k >= 6 {
      Pow2Monotone(5, k - 1);
      Pow2Monotone(5, Min(k - 1, 63));
    }
    if k <= 64 {
      Pow2Monotone(k - 1, 63);
    }
  }

  lemma JitterCapMonotone(j: nat, k: nat)
    requires j <= k
    ensures JitterCapMs(j) <= JitterCapMs(k) <= MAX_BACKOFF_MS
  {
    Pow2Monotone(Min(SaturatingSub(j, 1), 63), Min(SaturatingSub(k, 1), 63));
  }

  /** The most that the first `n` retries can sleep together. */
  function SumOfCaps(n: nat): nat {
    if n == 0 then 0 else SumOfCaps(n - 1) + JitterCapMs(n)
  }

  lemma {:induction false} SumOfCapsClosedForm(n: nat)
    ensures n <= 5 ==> SumOfCaps(n) == 50 * (Pow2(n) - 1)
    ensures n >= 5 ==> SumOfCaps(n) == 1_550 + 1_000 * (n - 5)
  {
    if n > 0 {
      SumOfCapsClosedForm(n - 1);
      JitterCapExact(n);
      assert Pow2(5) == 32 && Pow2(4) == 16;
      if n >= 6 {
        Pow2Monotone(5, n - 1);
      } else {
        Pow2Monotone(n - 1, 4);
      }
    }
  }

  lemma {:induction false} DelaysWithinCaps(delays: seq<nat>)
    requires forall i :: 0 <= i < |delays| ==> delays[i] <= JitterCapMs(i + 1)
    ensures Sum(delays) <= SumOfCaps(|delays|)
  {
    if delays != [] {
      DelaysWithinCaps(delays[..|delays| - 1]);
    }
  }

  lemma {:induction false} SumOfCapsMonotone(m: nat, n: nat)
    requires m <= n
    ensures SumOfCaps(m) <= SumOfCaps(n)
    decreases n
  {
    if m < n {
      SumOfCapsMonotone(m, n - 1);
    }
  }

  /** A call allowed five or more retries never sleeps longer than
      1550 ms plus one second for each retry past the fifth. */
  lemma TotalSleepBound(maxRetries: usize, delays: seq<nat>)
    requires |delays| < MaxAttempts(maxRetries)
    requires forall i :: 0 <= i < |delays| ==> delays[i] <= JitterCapMs(i + 1)
    ensures Sum(delays) <= SumOfCaps(maxRetries)
    ensures maxRetries >= 5 ==> Sum(delays) <= 1_550 + 1_000 * (maxRetries - 5)
  {
    DelaysWithinCaps(delays);
    SumOfCapsMonotone(|delays|, maxRetries);
    SumOfCapsClosedForm(maxRetries);
  }
}
