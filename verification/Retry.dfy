// The server's retry loop around the destination's Unix socket.
module Retry {
  /**
   * What attempt `i` meets: no socket file; the socket opens; `ConnectionRefusedError` or
   * `FileNotFoundError` from the open; any other exception.
   */
  datatype Attempt = Missing | Opens | Refused | Vanished | Other(error: nat)

  datatype Result = Connected | GaveUp | Raised(error: nat)

  /** The first `k` attempts found no file, were refused, or lost the file before the open. */
  predicate FirstFail(env: nat -> Attempt, k: nat)
  {
    forall j: nat :: j < k ==> env(j).Missing? || env(j).Refused? || env(j).Vanished?
  }

  /**
   * The loop connects at the first attempt that finds and opens the socket, if only such failures came
   * before it; passes any other error straight through; and gives up exactly after `max_retries` such
   * failures. It sleeps once per failure.
   */
  method ConnectToUnixSocket(env: nat -> Attempt, max_retries: nat, retry_delay: nat)
    returns (r: Result, attempts: nat, slept: nat)
    ensures r == Connected <==> exists k: nat :: k < max_retries && env(k) == Opens && FirstFail(env, k)
    ensures forall error :: r == Raised(error) <==>
              exists k: nat :: k < max_retries && env(k) == Other(error) && FirstFail(env, k)
    ensures r == GaveUp <==> FirstFail(env, max_retries)
    ensures var failures := if r == GaveUp then attempts else attempts - 1;
            && 0 <= failures && attempts <= max_retries && FirstFail(env, failures)
            && (r == GaveUp ==> attempts == max_retries)
            && (r == Connected ==> env(failures) == Opens)
            && (r.Raised? ==> env(failures) == Other(r.error))
            && slept == failures * retry_delay
  {
    attempts, slept := 0, 0;
    for attempt := 0 to max_retries
      invariant attempts == attempt && slept == attempt * retry_delay && FirstFail(env, attempt)
    {
      attempts := attempts + 1;
      match env(attempt) {
        case Opens =>
          return Connected, attempts, slept;
        case Other(error) =>
          return Raised(error), attempts, slept;
        case _ =>
      }
      slept := slept + retry_delay;
      assert slept == (attempt + 1) * retry_delay;
    }
    r := GaveUp;
  }
}
