/**
 * The slice of HTTP that the rate-limit pipeline looks at: requests with an
 * optional URI, responses with a status code and an optional Retry-After
 * header (section 10.2.3 of RFC 9110), and the exceptions a send can end in.
 *
 * Instants (`DateTimeOffset`) and durations (`TimeSpan`) are counted in .NET
 * ticks of 100 ns, as unbounded integers.
 */
module Http {
  import opened Wrappers

  /** .NET ticks per second (`TimeSpan.TicksPerSecond`). */
  const TicksPerSecond: int := 10_000_000
  const TicksPerMinute: int := 60 * TicksPerSecond

  /** `HttpStatusCode.TooManyRequests`, section 4 of RFC 6585. */
  const TooManyRequests: int := 429

  datatype Uri = Uri(host: string)

  datatype Request = Request(uri: Option<Uri>)

  /**
   * `RetryConditionHeaderValue`: the header carries a relative delay
   * (`Delta`) or an absolute HTTP-date (`Date`); both are nullable.
   */
  datatype RetryCondition = RetryCondition(delta: Option<int>, date: Option<int>)

  datatype Response = Response(status: int, retryAfter: Option<RetryCondition>)

  /**
   * `RateLimitException(message, retryAfter)` raised by the gate, or any
   * other exception (a timeout, a connection failure) named by its type.
   */
  datatype Exception =
    | RateLimitException(message: string, retryAfter: int)
    | TransportException(kind: string)

  /** What awaiting a `SendAsync` yields: a response, or a thrown exception. */
  datatype SendOutcome = Received(response: Response) | Thrown(error: Exception)
}
