/**
 * Retrying an operation that the server rate-limits: exponential backoff with
 * a cap, a limit on the number of retries, and an optional cancellation of
 * the waits.
 *
 * The operation is a function of how many times it has been called before
 * (call `k` is `op(k)`), which is all a stateful closure can observe here.
 * Cancellation is a function saying, for the wait after call `k`, whether
 * it is cancelled. The two callbacks are recorded as a list of events; the
 * wall-clock timestamp and the measured duration they also receive are not
 * part of this model.
 */
module Retry {
  import opened Wrappers
  import opened LastFmTypes
  import opened ClientConfigs

  /** `RetryResult`: the value and how the retries went. */
  datatype RetryResult<T> = RetryResult(result: T, attemptsMade: nat, totalRetryTime: nat)

  /** A call of `on_rate_limit` (with the delay) or of `on_rate_limit_end`. */
  datatype RetryEvent = RateLimited(delay: nat) | RateLimitEnded

  /** What a whole run gives: the outcome, the callbacks in order, and how often the operation ran. */
  datatype RetryRun<T> = RetryRun(result: Result<RetryResult<T>, LastFmError>, events: seq<RetryEvent>, calls: nat)

  function Pow2(n: nat): (r: nat)
    ensures r >= 1
  {
    if n == 0 then 1 else 2 * Pow2(n - 1)
  }

  lemma {:induction false} Pow2Monotone(m: nat, n: nat)
    requires m <= n
    ensures Pow2(m) <= Pow2(n)
    decreases n - m
  {
    if m < n {
      Pow2Monotone(m, n - 1);
    }
  }

  function Min(a: nat, b: nat): nat {
    if a <= b then a else b
  }

  /**
   * The wait before retry number `retries + 1`: the least of the exponential
   * backoff on top of the server's `retry_after`, the configured maximum, and
   * the legacy linear backoff of 30 seconds per retry.
   */
  function Delay(config: RetryConfig, retryAfter: nat, retries: nat): nat {
    Min(Min(retryAfter + config.baseDelay * Pow2(retries), config.maxDelay), retryAfter + retries * 30)
  }

  /** The wait is bounded by each of the three and equal to one of them. */
  lemma DelayBounds(config: RetryConfig, retryAfter: nat, retries: nat)
    ensures var d := Delay(config, retryAfter, retries);
      d <= retryAfter + config.baseDelay * Pow2(retries)
      && d <= config.maxDelay
      && d <= retryAfter + 30 * retries
      && (d == retryAfter + config.baseDelay * Pow2(retries) || d == config.maxDelay || d == retryAfter + 30 * retries)
  {
  }

  /** The first wait ignores the base delay: it is the server's `retry_after`, capped. */
  lemma FirstDelay(config: RetryConfig, retryAfter: nat)
    ensures Delay(config, retryAfter, 0) == Min(retryAfter, config.maxDelay)
  {
  }

  /** Later retries never wait less for the same `retry_after`. */
  lemma DelayNondecreasing(config: RetryConfig, retryAfter: nat, r1: nat, r2: nat)
    requires r1 <= r2
    ensures Delay(config, retryAfter, r1) <= Delay(config, retryAfter, r2)
  {
    Pow2Monotone(r1, r2);
    assert config.baseDelay * Pow2(r1) <= config.baseDelay * Pow2(r2) by {
      MulMonotone(config.baseDelay, Pow2(r1), Pow2(r2));
    }
  }

  lemma MulMonotone(a: nat, b: nat, c: nat)
    requires b <= c
    ensures a * b <= a * c
  {
  }

  /** When the cap allows it, the server's `retry_after` is always honoured. */
  lemma DelayAtLeastRetryAfter(config: RetryConfig, retryAfter: nat, retries: nat)
    requires retryAfter <= config.maxDelay
    ensures retryAfter <= Delay(config, retryAfter, retries)
  {
  }

  predicate IsRateLimit<T>(outcome: Result<T, LastFmError>) {
    outcome.Err? && outcome.error.RateLimit?
  }

  /** Whether the wait after call `k` is cancelled; without a receiver nothing is. */
  predicate Cancelled(cancel: Option<nat -> bool>, k: nat) {
    cancel.Some? && cancel.value(k)
  }

  /** The error a cancelled wait gives: an interrupted I/O error. */
  const CancelledError: LastFmError := Io("cancelled")

  /**
   * The run from call `retries` on, with `total` seconds already waited. Rate
   * limiting has been seen exactly when `retries > 0`, since only a rate
   * limit leads to another call.
   */
  function Run<T>(config: RetryConfig, op: nat -> Result<T, LastFmError>, cancel: Option<nat -> bool>,
                  retries: nat, total: nat): RetryRun<T>
    decreases config.maxRetries - retries
  {
    match op(retries)
    case Ok(v) => RetryRun(Ok(RetryResult(v, retries, total)), if retries > 0 then [RateLimitEnded] else [], 1)
    case Err(e) =>
      if !e.RateLimit? || !config.enabled || retries >= config.maxRetries then RetryRun(Err(e), [], 1)
      else
        var d := Delay(config, e.retryAfter, retries);
        if Cancelled(cancel, retries) then RetryRun(Err(CancelledError), [RateLimited(d)], 1)
        else
          var rest := Run(config, op, cancel, retries + 1, total + d);
          RetryRun(rest.result, [RateLimited(d)] + rest.events, rest.calls + 1)
  }

  /** The wait after call `k`, when call `k` was rate limited. */
  function DelayOf<T>(config: RetryConfig, op: nat -> Result<T, LastFmError>, k: nat): nat {
    if IsRateLimit(op(k)) then Delay(config, op(k).error.retryAfter, k) else 0
  }

  /** The `on_rate_limit` calls for the waits after calls `from` up to `to`, exclusive. */
  function WaitEvents<T>(config: RetryConfig, op: nat -> Result<T, LastFmError>, from: nat, to: nat): (r: seq<RetryEvent>)
    requires from <= to
    ensures |r| == to - from
  {
    seq(to - from, i requires 0 <= i < to - from => RateLimited(DelayOf(config, op, from + i)))
  }

  /** The seconds waited after calls `from` up to `to`, exclusive. */
  function WaitedTime<T>(config: RetryConfig, op: nat -> Result<T, LastFmError>, from: nat, to: nat): nat
    decreases to - from
  {
    if to <= from then 0 else DelayOf(config, op, from) + WaitedTime(config, op, from + 1, to)
  }

  lemma WaitEventsFront<T>(config: RetryConfig, op: nat -> Result<T, LastFmError>, from: nat, to: nat)
    requires from < to
    ensures WaitEvents(config, op, from, to) == [RateLimited(DelayOf(config, op, from))] + WaitEvents(config, op, from + 1, to)
  {
  }

  /**
   * A successful run: call `attemptsMade` succeeded with the returned value,
   * every call before it was rate limited and its wait not cancelled, the
   * retry time is the sum of the waits, one `on_rate_limit` came per wait and
   * `on_rate_limit_end` once at the end if there was any rate limiting. No
   * more than `max_retries` retries are made, none when retries are disabled.
   */
  lemma {:induction false} RunOk<T>(config: RetryConfig, op: nat -> Result<T, LastFmError>, cancel: Option<nat -> bool>,
                                    retries: nat, total: nat)
    ensures var run := Run(config, op, cancel, retries, total);
      run.result.Ok? ==>
        var a := run.result.value.attemptsMade;
        retries <= a && run.calls == a - retries + 1
        && op(a) == Ok(run.result.value.result)
        && (forall j :: retries <= j < a ==> IsRateLimit(op(j)) && !Cancelled(cancel, j))
        && run.result.value.totalRetryTime == total + WaitedTime(config, op, retries, a)
        && run.events == WaitEvents(config, op, retries, a) + (if a > 0 then [RateLimitEnded] else [])
        && (config.enabled && retries <= config.maxRetries ==> a <= config.maxRetries)
        && (!config.enabled ==> a == retries)
    decreases config.maxRetries - retries
  {
    var run := Run(config, op, cancel, retries, total);
    if run.result.Ok? && op(retries).Err? {
      var e := op(retries).error;
      var d := Delay(config, e.retryAfter, retries);
      RunOk(config, op, cancel, retries + 1, total + d);
      var a := run.result.value.attemptsMade;
      WaitEventsFront(config, op, retries, a);
    }
  }

  /**
   * A failed run: every call before the last was rate limited and its wait
   * not cancelled; the last call either failed with another error, which is
   * returned unchanged, or was rate limited with retries disabled or used up,
   * and that rate limit is returned, or was rate limited and the wait after it
   * was cancelled.
   */
  lemma {:induction false} RunErr<T>(config: RetryConfig, op: nat -> Result<T, LastFmError>, cancel: Option<nat -> bool>,
                                     retries: nat, total: nat)
    ensures var run := Run(config, op, cancel, retries, total);
      run.result.Err? ==>
        run.calls >= 1
        && var last := retries + run.calls - 1;
        (forall j :: retries <= j < last ==> IsRateLimit(op(j)) && !Cancelled(cancel, j))
        && ((op(last).Err? && !op(last).error.RateLimit?
             && run.result.error == op(last).error && run.events == WaitEvents(config, op, retries, last))
            || (IsRateLimit(op(last)) && (!config.enabled || last >= config.maxRetries)
                && run.result.error == op(last).error && run.events == WaitEvents(config, op, retries, last))
            || (IsRateLimit(op(last)) && config.enabled && last < config.maxRetries && Cancelled(cancel, last)
                && run.result.error == CancelledError && run.events == WaitEvents(config, op, retries, last + 1)))
  {
    RunErrEnd(config, op, cancel, retries, total);
  }

  /** How a failed run that started at call `from` ended at call `last`. */
  ghost predicate ErrEnd<T>(config: RetryConfig, op: nat -> Result<T, LastFmError>, cancel: Option<nat -> bool>,
                            from: nat, last: nat, run: RetryRun<T>)
    requires from <= last
  {
    (op(last).Err? && !op(last).error.RateLimit?
     && run.result == Err(op(last).error) && run.events == WaitEvents(config, op, from, last))
    || (IsRateLimit(op(last)) && (!config.enabled || last >= config.maxRetries)
        && run.result == Err(op(last).error) && run.events == WaitEvents(config, op, from, last))
    || (IsRateLimit(op(last)) && config.enabled && last < config.maxRetries && Cancelled(cancel, last)
        && run.result == Err(CancelledError) && run.events == WaitEvents(config, op, from, last + 1))
  }

  /** `RunErr`, by induction on the calls left. */
  lemma {:induction false} RunErrEnd<T>(config: RetryConfig, op: nat -> Result<T, LastFmError>, cancel: Option<nat -> bool>,
                                        retries: nat, total: nat)
    ensures var run := Run(config, op, cancel, retries, total);
      run.result.Err? ==>
        run.calls >= 1
        && (forall j :: retries <= j < retries + run.calls - 1 ==> IsRateLimit(op(j)) && !Cancelled(cancel, j))
        && ErrEnd(config, op, cancel, retries, retries + run.calls - 1, run)
    decreases config.maxRetries - retries
  {
    var run := Run(config, op, cancel, retries, total);
    if run.result.Err? && op(retries).Err? {
      var e := op(retries).error;
      if e.RateLimit? && config.enabled && retries < config.maxRetries && !Cancelled(cancel, retries) {
        var d := Delay(config, e.retryAfter, retries);
        RunErrEnd(config, op, cancel, retries + 1, total + d);
        var rest := Run(config, op, cancel, retries + 1, total + d);
        assert run == RetryRun(rest.result, [RateLimited(d)] + rest.events, rest.calls + 1);
        ErrEndFront(config, op, cancel, retries, retries + rest.calls, rest, run);
      } else if e.RateLimit? && config.enabled && retries < config.maxRetries {
        assert WaitEvents(config, op, retries, retries + 1) == [RateLimited(DelayOf(config, op, retries))];
      }
    }
  }

  /** A rate-limited, not cancelled call in front of a failed run keeps its ending, one wait longer. */
  lemma ErrEndFront<T>(config: RetryConfig, op: nat -> Result<T, LastFmError>, cancel: Option<nat -> bool>,
                       from: nat, last: nat, rest: RetryRun<T>, run: RetryRun<T>)
    requires from < last && ErrEnd(config, op, cancel, from + 1, last, rest)
    requires run.result == rest.result && run.events == [RateLimited(DelayOf(config, op, from))] + rest.events
    ensures ErrEnd(config, op, cancel, from, last, run)
  {
    if rest.result == Err(CancelledError) && rest.events == WaitEvents(config, op, from + 1, last + 1)
       && IsRateLimit(op(last)) && config.enabled && last < config.maxRetries && Cancelled(cancel, last) {
      WaitEventsFront(config, op, from, last + 1);
    } else {
      WaitEventsFront(config, op, from, last);
    }
  }

  /**
   * The operation runs at least once, once only when retries are disabled,
   * and never more than `max_retries + 1` times.
   */
  lemma {:induction false} CallsBound<T>(config: RetryConfig, op: nat -> Result<T, LastFmError>, cancel: Option<nat -> bool>,
                                         retries: nat, total: nat)
    requires retries <= config.maxRetries
    ensures 1 <= Run(config, op, cancel, retries, total).calls <= config.maxRetries - retries + 1
    ensures !config.enabled ==> Run(config, op, cancel, retries, total).calls == 1
    decreases config.maxRetries - retries
  {
    if op(retries).Err? {
      var e := op(retries).error;
      if e.RateLimit? && config.enabled && retries < config.maxRetries && !Cancelled(cancel, retries) {
        CallsBound(config, op, cancel, retries + 1, total + Delay(config, e.retryAfter, retries));
      }
    }
  }

  /**
   * Without cancellation and with retries enabled, the first call within the
   * retry budget that is not rate limited decides the run: its value is
   * returned after that many attempts, its error unchanged.
   */
  lemma {:induction false} RunFirstNotRateLimited<T>(config: RetryConfig, op: nat -> Result<T, LastFmError>,
                                                     retries: nat, total: nat, k: nat)
    requires config.enabled && retries <= k <= config.maxRetries
    requires forall j :: retries <= j < k ==> IsRateLimit(op(j))
    requires !IsRateLimit(op(k))
    ensures var res := Run(config, op, None, retries, total).result;
      (op(k).Ok? ==> res.Ok? && res.value.result == op(k).value && res.value.attemptsMade == k)
      && (op(k).Err? ==> res == Err(op(k).error))
    decreases k - retries
  {
    if retries < k {
      RunFirstNotRateLimited(config, op, retries + 1, total + Delay(config, op(retries).error.retryAfter, retries), k);
    }
  }

  /**
   * Without cancellation and with retries enabled, a run whose every call up
   * to `max_retries` is rate limited returns the last rate limit, with its
   * own `retry_after`.
   */
  lemma {:induction false} RunExhausted<T>(config: RetryConfig, op: nat -> Result<T, LastFmError>, retries: nat, total: nat)
    requires config.enabled && retries <= config.maxRetries
    requires forall j :: retries <= j <= config.maxRetries ==> IsRateLimit(op(j))
    ensures op(config.maxRetries).Err? && Run(config, op, None, retries, total).result == Err(op(config.maxRetries).error)
    decreases config.maxRetries - retries
  {
    if retries < config.maxRetries {
      RunExhausted(config, op, retries + 1, total + Delay(config, op(retries).error.retryAfter, retries));
    }
  }

  /** After a rate limit whose wait is not cancelled, the run goes on from the next call. */
  lemma RunWaitStep<T>(config: RetryConfig, op: nat -> Result<T, LastFmError>, cancel: Option<nat -> bool>,
                       retries: nat, total: nat, events: seq<RetryEvent>)
    requires IsRateLimit(op(retries)) && config.enabled && retries < config.maxRetries && !Cancelled(cancel, retries)
    ensures var d := Delay(config, op(retries).error.retryAfter, retries);
      After(events, retries, Run(config, op, cancel, retries, total))
      == After(events + [RateLimited(d)], retries + 1, Run(config, op, cancel, retries + 1, total + d))
  {
    var d := Delay(config, op(retries).error.retryAfter, retries);
    var rest := Run(config, op, cancel, retries + 1, total + d);
    assert (events + [RateLimited(d)]) + rest.events == events + ([RateLimited(d)] + rest.events);
  }

  /** `run` with the events `events` and `calls` calls in front of it. */
  function After<T>(events: seq<RetryEvent>, calls: nat, run: RetryRun<T>): RetryRun<T> {
    RetryRun(run.result, events + run.events, run.calls + calls)
  }

  /**
   * `retry_with_backoff_cancelable`: calls the operation until it succeeds,
   * fails with an error other than a rate limit, or is rate limited with
   * retries disabled or used up; after each other rate limit it reports and
   * waits the backoff delay, unless the wait is cancelled.
   */
  method RetryWithBackoffCancelable<T>(config: RetryConfig, op: nat -> Result<T, LastFmError>, cancel: Option<nat -> bool>)
    returns (r: Result<RetryResult<T>, LastFmError>, events: seq<RetryEvent>)
    ensures r == Run(config, op, cancel, 0, 0).result
    ensures events == Run(config, op, cancel, 0, 0).events
  {
    var retries: nat := 0;
    var totalRetryTime: nat := 0;
    var rateLimited := false;
    events := [];
    while true
      invariant retries <= config.maxRetries
      invariant rateLimited <==> retries > 0
      invariant Run(config, op, cancel, 0, 0) == After(events, retries, Run(config, op, cancel, retries, totalRetryTime))
      decreases config.maxRetries - retries
    {
      ghost var run := Run(config, op, cancel, retries, totalRetryTime);
      var outcome := op(retries);
      if outcome.Ok? {
        assert run == RetryRun(Ok(RetryResult(outcome.value, retries, totalRetryTime)),
                               if rateLimited then [RateLimitEnded] else [], 1);
        if rateLimited {
          events := events + [RateLimitEnded];
        } else {
          assert events + [] == events;
        }
        return Ok(RetryResult(outcome.value, retries, totalRetryTime)), events;
      }
      var e := outcome.error;
      if !e.RateLimit? {
        assert run == RetryRun(Err(e), [], 1);
        assert events + [] == events;
        return Err(e), events;
      }
      rateLimited := true;
      if !config.enabled || retries >= config.maxRetries {
        assert run == RetryRun(Err(e), [], 1);
        assert events + [] == events;
        return Err(e), events;
      }
      var delay := Delay(config, e.retryAfter, retries);
      if cancel.Some? && cancel.value(retries) {
        assert run == RetryRun(Err(CancelledError), [RateLimited(delay)], 1);
        events := events + [RateLimited(delay)];
        return Err(CancelledError), events;
      }
      RunWaitStep(config, op, cancel, retries, totalRetryTime, events);
      events := events + [RateLimited(delay)];
      retries := retries + 1;
      totalRetryTime := totalRetryTime + delay;
    }
  }

  /** `retry_with_backoff`: the same without cancellation. */
  method RetryWithBackoff<T>(config: RetryConfig, op: nat -> Result<T, LastFmError>)
    returns (r: Result<RetryResult<T>, LastFmError>, events: seq<RetryEvent>)
    ensures r == Run(config, op, None, 0, 0).result
    ensures events == Run(config, op, None, 0, 0).events
    ensures r.Err? ==> r.error != CancelledError || op(Run(config, op, None, 0, 0).calls - 1) == Err(CancelledError)
  {
    r, events := RetryWithBackoffCancelable(config, op, None);
    RunErr(config, op, None, 0, 0);
  }

  /** `retry_operation`: the same, with callbacks that only log. */
  method RetryOperation<T>(config: RetryConfig, op: nat -> Result<T, LastFmError>)
    returns (r: Result<RetryResult<T>, LastFmError>)
    ensures r == Run(config, op, None, 0, 0).result
  {
    var events;
    r, events := RetryWithBackoff(config, op);
  }
}
