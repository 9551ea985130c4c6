/**
 * The retry policy of the task handler: a ten-entry table from the number of
 * earlier attempts, as loaded with the task, to the delay before the next
 * attempt, and the record the handler writes when an attempt fails.
 */
module Backoff {
  import opened Wrappers
  import opened Records

  datatype TimeUnit = Seconds | Minutes | Hours

  /** `{ amount, unit }`, as `moment().add(amount, unit)` takes it. */
  datatype Interval = Interval(amount: nat, unit: TimeUnit)

  /** The `retryInterval` object; there is no entry for 10 or more. */
  function RetryInterval(retries: nat): Option<Interval>
  {
    if retries == 0 then Some(Interval(15, Seconds))
    else if retries == 1 then Some(Interval(30, Seconds))
    else if retries == 2 then Some(Interval(3, Minutes))
    else if retries == 3 then Some(Interval(10, Minutes))
    else if retries == 4 then Some(Interval(20, Minutes))
    else if retries == 5 then Some(Interval(30, Minutes))
    else if retries == 6 then Some(Interval(60, Minutes))
    else if retries == 7 then Some(Interval(3, Hours))
    else if retries == 8 then Some(Interval(6, Hours))
    else if retries == 9 then Some(Interval(24, Hours))
    else None
  }

  function UnitMillis(u: TimeUnit): nat
  {
    match u
    case Seconds => 1000
    case Minutes => 60 * 1000
    case Hours => 60 * 60 * 1000
  }

  function IntervalMillis(i: Interval): nat
  {
    i.amount * UnitMillis(i.unit)
  }

  /** The delay after a failed attempt, in milliseconds; None when no retry is scheduled. */
  function RetryDelayMillis(retries: nat): Option<nat>
  {
    var i := RetryInterval(retries);
    if i.Some? then Some(IntervalMillis(i.value)) else None
  }

  /** `task.retries > 9 ? 'failure' : 'retry'`. */
  function RetryStatus(retries: nat): Status
  {
    if retries > 9 then Failure else Retry
  }

  /**
   * The `data` record the handler writes after `notify` threw: a failure with
   * no retry, turned into a scheduled retry when the error is retryable, using
   * the `retries` the task was loaded with.
   */
  function FailureMark(retries: nat, retryable: bool, finishedAt: int, retryBase: int, reasons: string): Patch
  {
    var delay := RetryDelayMillis(retries);
    Patch(
      status := Some(if retryable then RetryStatus(retries) else Failure),
      handledAt := None,
      finishedAt := Some(finishedAt),
      retries := None,
      retryAt := Some(if retryable && delay.Some? then Some(retryBase + delay.value) else None),
      failureReasons := Some(Some(reasons)))
  }

  // ---------------------------------------------------------------------------
  // Properties
  // ---------------------------------------------------------------------------

  /** The table in milliseconds: 15 s, 30 s, 3 min, 10 min, 20 min, 30 min, 60 min, 3 h, 6 h, 24 h. */
  lemma BackoffSchedule(retries: nat)
    ensures RetryDelayMillis(retries) ==
      if retries == 0 then Some(15_000)
      else if retries == 1 then Some(30_000)
      else if retries == 2 then Some(180_000)
      else if retries == 3 then Some(600_000)
      else if retries == 4 then Some(1_200_000)
      else if retries == 5 then Some(1_800_000)
      else if retries == 6 then Some(3_600_000)
      else if retries == 7 then Some(10_800_000)
      else if retries == 8 then Some(21_600_000)
      else if retries == 9 then Some(86_400_000)
      else None
  {
  }

  /** Each further retry waits strictly longer than the one before. */
  lemma DelaysStrictlyIncreasing(r1: nat, r2: nat)
    requires r1 < r2 <= 9
    ensures RetryDelayMillis(r1).Some? && RetryDelayMillis(r2).Some?
    ensures RetryDelayMillis(r1).value < RetryDelayMillis(r2).value
  {
    BackoffSchedule(r1);
    BackoffSchedule(r2);
  }

  /**
   * The status check and the table lookup agree: the handler schedules a
   * retry exactly when the error is retryable and fewer than ten attempts
   * have been counted, and otherwise finalises the task as a failure with no
   * retry time. It writes status, finishedAt, failureReasons and retryAt, and
   * never retries or handledAt.
   */
  lemma FailureMarkSpec(retries: nat, retryable: bool, finishedAt: int, retryBase: int, reasons: string)
    ensures var p := FailureMark(retries, retryable, finishedAt, retryBase, reasons);
      && p.status.Some? && p.finishedAt == Some(finishedAt) && p.failureReasons == Some(Some(reasons))
      && p.retryAt.Some? && p.retries.None? && p.handledAt.None?
      && (p.status.value == Retry <==> retryable && retries <= 9)
      && (p.status.value == Failure <==> !(retryable && retries <= 9))
      && (p.retryAt.value.Some? <==> retryable && retries <= 9)
      && (p.retryAt.value.Some? ==> p.retryAt.value.value == retryBase + RetryDelayMillis(retries).value)
  {
  }
}
