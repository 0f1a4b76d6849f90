/**
 * The rate-limit gate (`RateLimitHandler`), a delegating HTTP handler that
 * sits in front of every outbound request: it refuses a request while the
 * target host is cooling down, forwards it otherwise, and turns a 429
 * response into a new cooldown and a `RateLimitException`.
 */
module RateLimitGate {
  import opened Wrappers
  import opened Http
  import Cooldowns

  /** The fallback delay, `TimeSpan.FromMinutes(2)`. */
  const TwoMinutes: int := 2 * TicksPerMinute

  /**
   * The delay a 429 response asks for: the Retry-After delta if there is
   * one, else the HTTP-date minus `now`, else two minutes; a negative
   * delay is replaced by two minutes, a zero delay is kept.
   */
  function GetRetryAfterDelay(response: Response, now: int): (delay: int)
    ensures delay >= 0
    ensures match response.retryAfter
      case Some(RetryCondition(Some(delta), _)) =>
        delay == if delta >= 0 then delta else TwoMinutes
      case Some(RetryCondition(None, Some(date))) =>
        delay == if date >= now then date - now else TwoMinutes
      case _ => delay == TwoMinutes
  {
    var candidate :=
      match response.retryAfter
      case Some(RetryCondition(Some(delta), _)) => delta
      case Some(RetryCondition(None, Some(date))) => date - now
      case _ => TwoMinutes;
    if candidate < 0 then TwoMinutes else candidate
  }

  /** The cooldown key of a request: its URI's host, or "unknown" without a URI. */
  function HostKey(request: Request): (key: string)
    ensures request.uri.Some? ==> key == request.uri.value.host
    ensures request.uri.None? ==> key == "unknown"
  {
    match request.uri
    case Some(uri) => uri.host
    case None => "unknown"
  }

  function CooldownActiveMessage(host: string): string {
    "Rate limit cooldown active for " + host
  }

  function RateLimitExceededMessage(host: string): string {
    "Provider " + host + " rate limit exceeded"
  }

  /**
   * The next stage of the pipeline, seen from the gate: `respond` is what a
   * send to it yields, and `received` records every request it was given.
   */
  class InnerHandler {
    const respond: Request -> SendOutcome
    var received: seq<Request>

    constructor(respond: Request -> SendOutcome)
      ensures this.respond == respond && received == []
    {
      this.respond := respond;
      received := [];
    }

    method SendAsync(request: Request) returns (outcome: SendOutcome)
      modifies this
      ensures received == old(received) + [request]
      ensures outcome == respond(request)
    {
      received := received + [request];
      outcome := respond(request);
    }
  }

  class RateLimitHandler {
    const coordinator: Cooldowns.RateLimitCoordinator
    const inner: InnerHandler

    constructor(coordinator: Cooldowns.RateLimitCoordinator, inner: InnerHandler)
      ensures this.coordinator == coordinator && this.inner == inner
    {
      this.coordinator := coordinator;
      this.inner := inner;
    }

    /**
     * One request through the gate. `now` is the instant the request
     * arrives, `later` the instant the inner handler's response arrives.
     */
    method SendAsync(request: Request, now: int, later: int) returns (outcome: SendOutcome)
      modifies coordinator, inner
      ensures var host := HostKey(request);
        var cooldown := Cooldowns.Remaining(old(coordinator.cooldowns), host, now);
        cooldown > 0 ==>
          && outcome == Thrown(RateLimitException(CooldownActiveMessage(host), cooldown))
          && inner.received == old(inner.received)
          && coordinator.cooldowns == old(coordinator.cooldowns)
      ensures var host := HostKey(request);
        var cooldown := Cooldowns.Remaining(old(coordinator.cooldowns), host, now);
        var checked := Cooldowns.Observed(old(coordinator.cooldowns), host, now);
        var reply := inner.respond(request);
        cooldown == 0 ==>
          && inner.received == old(inner.received) + [request]
          && (reply.Thrown? ==> outcome == reply && coordinator.cooldowns == checked)
          && (reply.Received? && reply.response.status != TooManyRequests ==>
                outcome == reply && coordinator.cooldowns == checked)
          && (reply.Received? && reply.response.status == TooManyRequests ==>
                var delay := GetRetryAfterDelay(reply.response, later);
                && outcome == Thrown(RateLimitException(RateLimitExceededMessage(host), delay))
                && coordinator.cooldowns == Cooldowns.Raised(checked, host, later + delay))
    {
      var host := HostKey(request);
      var cooldown := coordinator.GetRemainingCooldown(host, now);
      if cooldown > 0 {
        return Thrown(RateLimitException(CooldownActiveMessage(host), cooldown));
      }
      var reply := inner.SendAsync(request);
      if reply.Thrown? {
        return reply;
      }
      var response := reply.response;
      if response.status == TooManyRequests {
        var delay := GetRetryAfterDelay(response, later);
        coordinator.UpdateCooldown(host, delay, later);
        return Thrown(RateLimitException(RateLimitExceededMessage(host), delay));
      }
      return reply;
    }
  }

  lemma ExceededMessageExample()
    ensures RateLimitExceededMessage("example.com") == "Provider example.com rate limit exceeded"
  {
  }

  lemma CooldownMessageExample()
    ensures CooldownActiveMessage("example.com") == "Rate limit cooldown active for example.com"
  {
  }

  /**
   * A 429 carrying `Retry-After: 3600` fails with a one-hour retry delay;
   * the cooldown it installs makes the next request to the same host, a
   * minute later, fail at once with the time left, without reaching the
   * inner handler.
   */
  method ThrottledHostIsShortCircuited(now: int) returns (first: SendOutcome, second: SendOutcome, forwarded: nat)
    ensures first == Thrown(RateLimitException("Provider example.com rate limit exceeded", 3600 * TicksPerSecond))
    ensures second == Thrown(RateLimitException("Rate limit cooldown active for example.com", 3540 * TicksPerSecond))
    ensures forwarded == 1
  {
    var throttled := Response(TooManyRequests, Some(RetryCondition(Some(3600 * TicksPerSecond), None)));
    var inner := new InnerHandler(_ => Received(throttled));
    var coordinator := new Cooldowns.RateLimitCoordinator();
    var handler := new RateLimitHandler(coordinator, inner);
    var request := Request(Some(Uri("example.com")));
    assert HostKey(request) == "example.com";
    ExceededMessageExample();
    CooldownMessageExample();
    first := handler.SendAsync(request, now, now);
    assert coordinator.cooldowns == map["example.com" := now + 3600 * TicksPerSecond];
    second := handler.SendAsync(request, now + TicksPerMinute, now + TicksPerMinute);
    forwarded := |inner.received|;
  }

  /**
   * A 429 without a Retry-After header fails with the two-minute fallback;
   * a timeout from the inner handler passes through unchanged and leaves
   * the store as it was.
   */
  method FallbackAndTimeout(now: int) returns (throttled: SendOutcome, timedOut: SendOutcome, stored: map<string, int>)
    ensures throttled == Thrown(RateLimitException("Provider example.com rate limit exceeded", TwoMinutes))
    ensures timedOut == Thrown(TransportException("TimeoutException"))
    ensures stored == map[]
  {
    var bare := new InnerHandler(_ => Received(Response(TooManyRequests, None)));
    var coordinator := new Cooldowns.RateLimitCoordinator();
    var handler := new RateLimitHandler(coordinator, bare);
    ExceededMessageExample();
    throttled := handler.SendAsync(Request(Some(Uri("example.com"))), now, now);

    var failing := new InnerHandler(_ => Thrown(TransportException("TimeoutException")));
    var empty := new Cooldowns.RateLimitCoordinator();
    var other := new RateLimitHandler(empty, failing);
    timedOut := other.SendAsync(Request(Some(Uri("example.com"))), now, now);
    stored := empty.cooldowns;
  }
}
