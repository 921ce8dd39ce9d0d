/** The worker's retry loop: a bounded number of attempts with exponential backoff. */
module Retry {
  import opened Basics
  import opened Scrape

  /** What the loop returns: nothing at all when it made no attempt, the last attempt's
      outcome, or the context's error when the wait before an attempt was interrupted. */
  datatype Tried =
    | Nothing
    | Success(result: Result)
    | Failure(partial: Option<Result>)
    | Interrupted

  function Pow2(k: nat): (p: nat)
    ensures p > 0
  {
    if k == 0 then 1 else 2 * Pow2(k - 1)
  }

  /** The shift 1 << k of a signed 64-bit one. */
  function Shift1(k: nat): int
  {
    if k < 64 then Wrap64(Pow2(k)) else 0
  }

  /** The nanoseconds the loop sleeps before attempt k + 1 (the first attempt has number 0):
      100 * (1 << k) milliseconds in 64-bit arithmetic; a negative duration is no sleep. */
  function SleepNs(k: nat): nat
  {
    var d := Wrap64(Wrap64(100 * Shift1(k)) * 1_000_000);
    if d < 0 then 0 else d
  }

  /** The sleep before the given number of attempts have been made. */
  function TotalSleepNs(attempts: nat): nat
  {
    if attempts <= 1 then 0 else TotalSleepNs(attempts - 1) + SleepNs(attempts - 2)
  }

  /** The loop from attempt k on, with what it would return if it ended there. */
  function RetryFrom(outcome: nat -> Scraped, interrupted: nat -> bool, maxRetries: int, k: nat, last: Tried): Tried
    decreases maxRetries - k
  {
    if k >= maxRetries then last
    else if k > 0 && interrupted(k) then Interrupted
    else
      match outcome(k)
      case Page(result) => Success(result)
      case Error(partial) => RetryFrom(outcome, interrupted, maxRetries, k + 1, Failure(partial))
  }

  /** The attempts made when the loop is at attempt k and runs to its end. */
  function AttemptsFrom(outcome: nat -> Scraped, interrupted: nat -> bool, maxRetries: int, k: nat): (attempts: nat)
    ensures attempts >= k && (attempts <= maxRetries || attempts == k)
    decreases maxRetries - k
  {
    if k >= maxRetries || (k > 0 && interrupted(k)) then k
    else if outcome(k).Page? then k + 1
    else AttemptsFrom(outcome, interrupted, maxRetries, k + 1)
  }

  /** The outcome of attempt i is outcome(i); interrupted(i) tells that the context ends during
      the wait before it. Also returns the number of attempts and the time slept in full. */
  method ExecuteWithRetry(outcome: nat -> Scraped, interrupted: nat -> bool, maxRetries: int)
    returns (r: Tried, attempts: nat, slept: nat)
    ensures r == Nothing <==> maxRetries <= 0
    ensures r == Nothing ==> attempts == 0
    ensures r != Nothing ==> 1 <= attempts <= maxRetries
    ensures forall i :: 0 <= i < attempts - 1 ==> outcome(i).Error?
    ensures forall i :: 0 < i < attempts ==> !interrupted(i)
    ensures r.Success? ==> outcome(attempts - 1) == Page(r.result)
    ensures r.Failure? ==> attempts == maxRetries && outcome(attempts - 1) == Error(r.partial)
    ensures r.Interrupted? ==> attempts < maxRetries && outcome(attempts - 1).Error? && interrupted(attempts)
    ensures slept == TotalSleepNs(attempts)
    ensures r == RetryFrom(outcome, interrupted, maxRetries, 0, Nothing)
    ensures attempts == AttemptsFrom(outcome, interrupted, maxRetries, 0)
  {
    r, attempts, slept := Nothing, 0, 0;
    while attempts < maxRetries
      invariant attempts <= maxRetries || attempts == 0
      invariant r == Nothing <==> attempts == 0
      invariant forall i :: 0 <= i < attempts ==> outcome(i).Error?
      invariant forall i :: 0 < i < attempts ==> !interrupted(i)
      invariant attempts > 0 ==> r.Failure? && outcome(attempts - 1) == Error(r.partial)
      invariant slept == TotalSleepNs(attempts)
      invariant RetryFrom(outcome, interrupted, maxRetries, 0, Nothing)
             == RetryFrom(outcome, interrupted, maxRetries, attempts, r)
      invariant AttemptsFrom(outcome, interrupted, maxRetries, 0)
             == AttemptsFrom(outcome, interrupted, maxRetries, attempts)
    {
      if attempts > 0 {
        if interrupted(attempts) {
          return Interrupted, attempts, slept;
        }
        slept := slept + SleepNs(attempts - 1);
      }
      var scraped := outcome(attempts);
      attempts := attempts + 1;
      match scraped {
        case Page(result) =>
          return Success(result), attempts, slept;
        case Error(partial) =>
          r := Failure(partial);
      }
    }
  }

  /** The first attempt below n that succeeds, or n. */
  function FirstSuccess(outcome: nat -> Scraped, n: nat): (f: nat)
    ensures f <= n
    ensures forall i :: 0 <= i < f ==> outcome(i).Error?
    ensures f < n ==> outcome(f).Page?
  {
    if n == 0 then 0
    else
      var f := FirstSuccess(outcome, n - 1);
      if f < n - 1 || outcome(f).Page? then f else n
  }

  /** Without a shutdown the contract above leaves one possibility: min(first success + 1,
      maxRetries) attempts, and the first success or else the last failure. */
  method RetryUndisturbed(outcome: nat -> Scraped, maxRetries: nat) returns (r: Tried, attempts: nat, slept: nat)
    requires maxRetries >= 1
    ensures var f := FirstSuccess(outcome, maxRetries);
            && attempts == (if f < maxRetries then f + 1 else maxRetries)
            && (match outcome(attempts - 1)
                case Page(x) => r == Success(x)
                case Error(p) => r == Failure(p))
            && slept == TotalSleepNs(attempts)
  {
    r, attempts, slept := ExecuteWithRetry(outcome, (i: nat) => false, maxRetries);
  }

  // ---- What retries_used tells ----------------------------------------------------------------

  /** What calculateRetries makes of the loop's return. */
  function RetriesUsed(r: Tried): int
  {
    if r.Success? then 0 else 1
  }

  /** The loop does not go on after the first attempt. */
  predicate OneAllowed(interrupted: nat -> bool, maxRetries: int)
  {
    maxRetries == 1 || interrupted(1)
  }

  /** The stored number counts the attempts if and only if the first one failed and no second was
      possible; it counts the retries, the attempts after the first, if and only if the first
      attempt succeeded, or two were made and both failed. */
  lemma RetriesUsedIff(outcome: nat -> Scraped, interrupted: nat -> bool, maxRetries: int)
    requires maxRetries >= 1
    ensures var a := AttemptsFrom(outcome, interrupted, maxRetries, 0);
            var used := RetriesUsed(RetryFrom(outcome, interrupted, maxRetries, 0, Nothing));
            && (a == 1 <==> outcome(0).Page? || OneAllowed(interrupted, maxRetries))
            && (used == a <==> outcome(0).Error? && OneAllowed(interrupted, maxRetries))
            && (used == a - 1 <==>
                  || outcome(0).Page?
                  || (!OneAllowed(interrupted, maxRetries) && outcome(1).Error? && (maxRetries == 2 || interrupted(2))))
  {
    if outcome(0).Error? {
      var last := Failure(outcome(0).partial);
      assert RetryFrom(outcome, interrupted, maxRetries, 0, Nothing) == RetryFrom(outcome, interrupted, maxRetries, 1, last);
      assert AttemptsFrom(outcome, interrupted, maxRetries, 0) == AttemptsFrom(outcome, interrupted, maxRetries, 1);
      if !OneAllowed(interrupted, maxRetries) && outcome(1).Error? {
        assert AttemptsFrom(outcome, interrupted, maxRetries, 1) == AttemptsFrom(outcome, interrupted, maxRetries, 2);
      }
    }
  }

  /** Every error counts alike: when all attempts fail, the loop makes every attempt it may. */
  lemma {:induction false} AllAttemptsMade(outcome: nat -> Scraped, interrupted: nat -> bool, maxRetries: int, k: nat)
    requires k <= maxRetries && forall i: nat :: outcome(i).Error? && !interrupted(i)
    ensures AttemptsFrom(outcome, interrupted, maxRetries, k) == maxRetries
    decreases maxRetries - k
  {
    if k < maxRetries {
      AllAttemptsMade(outcome, interrupted, maxRetries, k + 1);
    }
  }

  // ---- The backoff --------------------------------------------------------------------------

  lemma {:induction false} Pow2Grows(j: nat, k: nat)
    requires j <= k
    ensures Pow2(j) <= Pow2(k)
  {
    if j < k {
      Pow2Grows(j, k - 1);
    }
  }

  lemma Pow2At36()
    ensures Pow2(36) == 0x10_0000_0000
    ensures Pow2(37) == 0x20_0000_0000
  {
    assert Pow2(9) == 512;
    assert Pow2(18) == 512 * 512;
    assert Pow2(27) == 512 * 512 * 512;
    assert Pow2(36) == 512 * 512 * 512 * 512;
  }

  /** The sleeps double up to the thirty-seventh; every later one is cut short by overflow. */
  lemma SleepIsExact(k: nat)
    ensures k <= 36 ==> SleepNs(k) == 100_000_000 * Pow2(k)
    ensures k > 36 ==> SleepNs(k) < 100_000_000 * Pow2(k)
  {
    Pow2At36();
    if k <= 36 {
      Pow2Grows(k, 36);
    } else {
      Pow2Grows(37, k);
    }
  }

  lemma {:induction false} TotalSleep(a: nat)
    requires a >= 1
    ensures TotalSleepNs(a) <= 100_000_000 * (Pow2(a - 1) - 1)
    ensures TotalSleepNs(a) == 100_000_000 * (Pow2(a - 1) - 1) <==> a <= 38
  {
    if a > 1 {
      TotalSleep(a - 1);
      SleepIsExact(a - 2);
    }
  }

  /** The total backoff after a attempts is 100 * (2^(a-1) - 1) milliseconds exactly when there
      were at most 38 of them: the next sleep no longer fits a 64-bit duration. */
  lemma BackoffIsExactIff(a: nat)
    requires a >= 1
    ensures TotalSleepNs(a) == 100 * (Pow2(a - 1) - 1) * 1_000_000 <==> a <= 38
  {
    TotalSleep(a);
  }

  /** Requests that set max_retries may set at most 5: never more than 1500 ms of backoff. */
  lemma ValidatedBackoffIsShort(a: nat)
    requires a <= 5
    ensures TotalSleepNs(a) <= 1500 * 1_000_000
  {
    if a >= 1 {
      TotalSleep(a);
      Pow2Grows(a - 1, 4);
      assert Pow2(4) == 16;
    }
  }
}
