/**
 * The rate-limit tracker: the two numbers the server reports in its
 * `x-rate-limit-remaining` and `x-rate-limit-reset` headers, and the wait they imply.
 * Sleeping becomes a returned duration and the clock becomes a `now` argument.
 */
module RateLimit {
  import opened Wrappers
  import Text

  /** Response headers as the client sees them after `dict(response.headers)`. */
  type Headers = map<string, string>

  const RemainingHeader := "x-rate-limit-remaining"
  const ResetHeader := "x-rate-limit-reset"

  /** `int(headers.get(name, default))`; `None` when the header is present but not an integer. */
  function HeaderInt(h: Headers, name: string, default: int): Option<int> {
    if name in h then Text.ParseInt(h[name]) else Some(default)
  }

  /** Both headers can be read, so `update_limits` completes without raising. */
  predicate HeadersReadable(h: Headers) {
    HeaderInt(h, RemainingHeader, 1).Some? && HeaderInt(h, ResetHeader, 0).Some?
  }

  /** The reset epoch second `update_limits` stores for readable headers. */
  function ResetFrom(h: Headers): int
    requires HeadersReadable(h)
  {
    HeaderInt(h, ResetHeader, 0).value
  }

  /** The limiter's two fields, unset (`None`) until the first update. */
  datatype Limits = Limits(remaining: Option<int>, resetTime: Option<int>)

  /**
   * The state after `update_limits(h)`. Both fields are overwritten; if a header is
   * not an integer, `int()` raises at that assignment and the fields assigned before
   * it keep their new values.
   */
  function Updated(l: Limits, h: Headers): Limits {
    match HeaderInt(h, RemainingHeader, 1)
    case None => l
    case Some(rem) =>
      match HeaderInt(h, ResetHeader, 0)
      case None => l.(remaining := Some(rem))
      case Some(reset) => Limits(Some(rem), Some(reset))
  }

  /** The seconds `wait_for_limit_reset` sleeps once a reset time is known: `max(reset - now, 1)`. */
  function WaitSeconds(reset: int, now: int): (w: int)
    ensures w >= 1 && w >= reset - now
    ensures w == reset - now || w == 1
  {
    if reset - now > 1 then reset - now else 1
  }

  class RateLimiter {
    var remaining: Option<int>
    var resetTime: Option<int>

    function State(): Limits
      reads this
    {
      Limits(remaining, resetTime)
    }

    /** A fresh limiter knows nothing: it does not ask to wait and would not sleep. */
    constructor ()
      ensures State() == Limits(None, None)
      ensures !ShouldWait()
      ensures forall now :: WaitForLimitReset(now) == None
    {
      remaining := None;
      resetTime := None;
    }

    /** `update_limits`; `ok` is false exactly when `int()` raises on a header. */
    method UpdateLimits(h: Headers) returns (ok: bool)
      modifies this
      ensures ok <==> HeadersReadable(h)
      ensures State() == Updated(old(State()), h)
    {
      var rem := HeaderInt(h, RemainingHeader, 1);
      if rem.None? {
        return false;
      }
      remaining := Some(rem.value);
      var reset := HeaderInt(h, ResetHeader, 0);
      if reset.None? {
        return false;
      }
      resetTime := Some(reset.value);
      ok := true;
    }

    /** `should_wait`: the window has no requests left. */
    function ShouldWait(): bool
      reads this
    {
      remaining == Some(0)
    }

    /**
     * The duration `wait_for_limit_reset(now)` sleeps: nothing while no reset time is
     * known, otherwise `max(resetTime - now, 1)` seconds.
     */
    function WaitForLimitReset(now: int): (wait: Option<int>)
      reads this
      ensures wait.None? <==> resetTime.None?
      ensures wait.Some? ==> wait.value >= 1 && wait.value == WaitSeconds(resetTime.value, now)
    {
      if resetTime.Some? then Some(WaitSeconds(resetTime.value, now)) else None
    }
  }

  /** After a complete update the state no longer depends on what it was before. */
  lemma UpdateOverwrites(l1: Limits, l2: Limits, h: Headers)
    requires HeadersReadable(h)
    ensures Updated(l1, h) == Updated(l2, h)
    ensures Updated(l1, h) == Limits(HeaderInt(h, RemainingHeader, 1), Some(ResetFrom(h)))
  {
  }

  /** Applying the same headers twice leaves the same state as applying them once. */
  lemma UpdateIdempotent(l: Limits, h: Headers)
    ensures Updated(Updated(l, h), h) == Updated(l, h)
  {
  }

  /** A missing remaining header is read as 1, so it never signals an exhausted window. */
  lemma MissingRemainingNeverThrottles(l: Limits, h: Headers)
    requires RemainingHeader !in h
    ensures Updated(l, h).remaining == Some(1)
  {
  }

  /**
   * After an update whose remaining header can be read, the limiter asks to wait
   * exactly when the server announced 0 requests left.
   */
  lemma ThrottlesExactlyOnZero(limiter: RateLimiter, before: Limits, h: Headers)
    requires limiter.State() == Updated(before, h)
    requires HeaderInt(h, RemainingHeader, 1).Some?
    ensures limiter.ShouldWait() <==> RemainingHeader in h && Text.ParseInt(h[RemainingHeader]) == Some(0)
  {
  }

  /** A missing reset header is read as 0, so the next wait is exactly the 1-second floor. */
  lemma MissingResetWaitsOneSecond(l: Limits, h: Headers, now: int)
    requires ResetHeader !in h && HeaderInt(h, RemainingHeader, 1).Some?
    requires now >= 0
    ensures Updated(l, h).resetTime == Some(0)
    ensures WaitSeconds(Updated(l, h).resetTime.value, now) == 1
  {
  }

  /** The wait is the time left until the reset whenever that is at least one second. */
  lemma WaitIsTimeToReset(reset: int, now: int)
    requires reset - now >= 1
    ensures WaitSeconds(reset, now) == reset - now
  {
  }
}
