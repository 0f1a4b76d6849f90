/**
 * The retry policy of the provider HTTP client (`RegisterHttpClients`):
 * its constants, and the delay generator that lets a Retry-After header
 * override the exponential backoff between attempts.
 */
module Resilience {
  import opened Wrappers
  import opened Http
  import RateLimitGate

  datatype BackoffType = Constant | Linear | Exponential

  datatype RetryOptions = RetryOptions(
    attemptTimeout: int,
    maxRetryAttempts: nat,
    backoffType: BackoffType,
    useJitter: bool,
    delay: int)

  /** The standard resilience handler's settings for the provider client. */
  const ProviderRetryOptions: RetryOptions := RetryOptions(
    attemptTimeout := 10 * TicksPerSecond,
    maxRetryAttempts := 5,
    backoffType := Exponential,
    useJitter := true,
    delay := 2 * TicksPerSecond)

  /**
   * The provider policy in seconds: each attempt times out after 10 s, a
   * failed request is retried up to 5 times, and the delays grow
   * exponentially from 2 s with jitter.
   */
  lemma ProviderPolicy()
    ensures ProviderRetryOptions.attemptTimeout == 10 * TicksPerSecond
    ensures ProviderRetryOptions.maxRetryAttempts == 5
    ensures ProviderRetryOptions.backoffType == Exponential && ProviderRetryOptions.useJitter
    ensures ProviderRetryOptions.delay == 2 * TicksPerSecond
  {
  }

  /** The Retry-After header of an attempt's outcome; an exception carries none. */
  function RetryAfterOf(outcome: SendOutcome): Option<RetryCondition> {
    match outcome
    case Received(response) => response.retryAfter
    case Thrown(_) => None
  }

  /**
   * The delay before the next attempt, or `None` to let the policy use its
   * exponential default: the header's delta as it is, else its date minus
   * `now` clamped at zero.
   */
  function DelayGenerator(outcome: SendOutcome, now: int): (delay: Option<int>)
    ensures delay.None? <==>
      (RetryAfterOf(outcome).None? ||
       (RetryAfterOf(outcome).value.delta.None? && RetryAfterOf(outcome).value.date.None?))
    ensures RetryAfterOf(outcome).Some? && RetryAfterOf(outcome).value.delta.Some? ==>
      delay == RetryAfterOf(outcome).value.delta
    ensures RetryAfterOf(outcome).Some? && RetryAfterOf(outcome).value.delta.None? && delay.Some? ==>
      delay.value >= 0 && delay.value >= RetryAfterOf(outcome).value.date.value - now
      && (delay.value == 0 || delay.value == RetryAfterOf(outcome).value.date.value - now)
  {
    match outcome
    case Received(Response(_, Some(retryAfter))) =>
      if retryAfter.delta.Some? then
        Some(retryAfter.delta.value)
      else if retryAfter.date.Some? then
        var delay := retryAfter.date.value - now;
        Some(if delay > 0 then delay else 0)
      else
        None
    case _ => None
  }

  /**
   * Where the generator and the gate's `GetRetryAfterDelay` agree: on a
   * delta that is not negative and on a date that is not in the past.
   */
  lemma GeneratorAgreesWithGate(response: Response, now: int)
    requires response.retryAfter.Some?
    requires var header := response.retryAfter.value;
      || (header.delta.Some? && header.delta.value >= 0)
      || (header.delta.None? && header.date.Some? && header.date.value >= now)
    ensures DelayGenerator(Received(response), now) == Some(RateLimitGate.GetRetryAfterDelay(response, now))
  {
  }

  /** A date in the past: zero for the generator, two minutes for the gate. */
  lemma PastDateDiffers(response: Response, now: int)
    requires response.retryAfter.Some?
    requires response.retryAfter.value.delta.None?
    requires response.retryAfter.value.date.Some? && response.retryAfter.value.date.value < now
    ensures DelayGenerator(Received(response), now) == Some(0)
    ensures RateLimitGate.GetRetryAfterDelay(response, now) == RateLimitGate.TwoMinutes
  {
  }

  /** No header: the generator defers to the backoff, the gate waits two minutes. */
  lemma AbsentHeaderDiffers(response: Response, now: int)
    requires response.retryAfter.None?
    ensures DelayGenerator(Received(response), now).None?
    ensures RateLimitGate.GetRetryAfterDelay(response, now) == RateLimitGate.TwoMinutes
  {
  }

  /** A negative delta: passed through by the generator, replaced by the gate. */
  lemma NegativeDeltaDiffers(response: Response, now: int)
    requires response.retryAfter.Some?
    requires response.retryAfter.value.delta.Some? && response.retryAfter.value.delta.value < 0
    ensures DelayGenerator(Received(response), now) == response.retryAfter.value.delta
    ensures DelayGenerator(Received(response), now).value < 0
    ensures RateLimitGate.GetRetryAfterDelay(response, now) == RateLimitGate.TwoMinutes
  {
  }

  /** An exception outcome (a timeout, say) leaves the delay to the backoff. */
  lemma ExceptionUsesBackoff(error: Exception, now: int)
    ensures DelayGenerator(Thrown(error), now).None?
  {
  }
}
