/** `Schedule.next_run`: the latest run boundary `starting + k * duration`
    at or before the current time. Times and durations are integer seconds;
    the current time is a parameter. */
module Schedule {
  import opened Wrappers
  import opened IntMath

  /** Python's `math.floor(a / b)` for integers: the quotient rounded toward
      negative infinity, for either sign of the divisor. */
  function FloorDiv(a: int, b: int): (q: int)
    requires b != 0
    ensures b > 0 ==> q * b <= a < q * b + b
    ensures b < 0 ==> q * b >= a > q * b + b
  {
    DivMod(a, if b > 0 then b else -b);
    if b > 0 then a / b else (-a) / (-b)
  }

  /** `next_run`: `starting + floor((now - starting) / duration) * duration`;
      a zero duration divides by zero. */
  function NextRun(starting: int, duration: int, now: int): (r: Result<int>)
    ensures r.Success? <==> duration != 0
  {
    if duration == 0 then Failure("division by zero")
    else Success(starting + FloorDiv(now - starting, duration) * duration)
  }

  /** For a positive duration the next run is the latest boundary not after
      `now`: at most `now` and less than one duration before it, whether
      `now` is before or after `starting`. */
  lemma NextRunLatestBoundary(starting: int, duration: int, now: int)
    requires duration > 0
    ensures var r := NextRun(starting, duration, now).value;
      && r <= now < r + duration
      && (exists k :: r == starting + k * duration)
  {
  }

  /** On a boundary the next run is `now` itself. */
  lemma NextRunOnBoundary(starting: int, duration: int, m: int)
    requires duration > 0
    ensures NextRun(starting, duration, starting + m * duration) == Success(starting + m * duration)
  {
    var q := FloorDiv(m * duration, duration);
    MulMonotone(q, m, duration);
    if q < m {
      MulSucc(q, duration);
      MulMonotone(q + 1, m, duration);
    }
    if q > m {
      MulSucc(m, duration);
      MulMonotone(m + 1, q, duration);
    }
  }

  /** Before `starting` the multiplier is negative, yet the result is still a
      boundary not after `now`. */
  lemma NextRunBeforeStart(starting: int, duration: int, now: int)
    requires duration > 0 && now < starting
    ensures FloorDiv(now - starting, duration) < 0
    ensures NextRun(starting, duration, now).value <= now
  {
    var q := FloorDiv(now - starting, duration);
    if q >= 0 {
      MulNonNegative(q, duration);
    }
  }

  /** A negative duration mirrors the positive case: the boundary is at
      least `now` and less than one duration above it. */
  lemma NextRunNegativeDuration(starting: int, duration: int, now: int)
    requires duration < 0
    ensures var r := NextRun(starting, duration, now).value;
      now <= r < now - duration
  {
  }

  /** Any boundary not after `now` is at most the next run. */
  lemma NextRunIsLatest(starting: int, duration: int, now: int, k: int)
    requires duration > 0
    requires starting + k * duration <= now
    ensures starting + k * duration <= NextRun(starting, duration, now).value
  {
    var q := FloorDiv(now - starting, duration);
    if k > q {
      MulSucc(q, duration);
      MulMonotone(q + 1, k, duration);
    }
    MulMonotone(k, q, duration);
  }
}
