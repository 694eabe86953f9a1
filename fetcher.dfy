/** The retry loop of `fetch_products`. The HTTP client, its timeouts and the sleep are
    not modelled: each attempt is an outcome supplied by the environment, and each sleep
    is recorded as the number of seconds asked for. */
module Fetcher {
  import opened Http
  import opened Feed
  import opened Classifier

  const MaxRetries: nat := 3

  /** What one attempt ends with. `HttpError` is every `httpx.HTTPError` other than a read
      timeout: a non-2xx status, a connect, write or pool timeout, a connection failure.
      `OtherError` is any other exception before decoding, an XML syntax error included.
      `Received` is a 2xx response whose body parsed into `tree`. */
  datatype Outcome = ReadTimeout | HttpError | OtherError | Received(tree: Entries)

  /** Runs attempts `outcomes[0]`, `outcomes[1]`, ... until one settles the call.
      Returns the result, the sleeps performed and the number of attempts made. */
  method FetchProducts(outcomes: seq<Outcome>) returns (r: Result<seq<Product>>, sleeps: seq<nat>, attempts: nat)
    requires |outcomes| >= MaxRetries
    ensures 1 <= attempts <= MaxRetries
    ensures forall i :: 0 <= i < attempts - 1 ==> outcomes[i].ReadTimeout?
    ensures |sleeps| == attempts - 1
    ensures forall i :: 0 <= i < |sleeps| ==> sleeps[i] == 2 * (i + 1)
    ensures outcomes[attempts - 1].ReadTimeout? ==> attempts == MaxRetries && r == Err(GatewayTimeout)
    ensures outcomes[attempts - 1].HttpError? ==> r == Err(ServiceUnavailable)
    ensures outcomes[attempts - 1].OtherError? ==> r == Err(InternalServerError)
    ensures outcomes[attempts - 1].Received? ==> r == Decode(outcomes[attempts - 1].tree, Categorize)
  {
    var retryCount: nat := 0;
    sleeps := [];
    attempts := 0;
    while retryCount < MaxRetries
      invariant retryCount < MaxRetries
      invariant attempts == retryCount
      invariant forall i :: 0 <= i < retryCount ==> outcomes[i].ReadTimeout?
      invariant |sleeps| == retryCount
      invariant forall i :: 0 <= i < |sleeps| ==> sleeps[i] == 2 * (i + 1)
    {
      attempts := attempts + 1;
      match outcomes[retryCount] {
        case Received(tree) =>
          r := DecodeFeed(tree, Categorize);
          return;
        case ReadTimeout =>
          retryCount := retryCount + 1;
          if retryCount >= MaxRetries {
            r := Err(GatewayTimeout);
            return;
          }
          sleeps := sleeps + [2 * retryCount];
        case HttpError =>
          r := Err(ServiceUnavailable);
          return;
        case OtherError =>
          r := Err(InternalServerError);
          return;
      }
    }
    // every way out of the loop returns; the guard never fails
    assert false;
  }

  /** Three read timeouts in a row: attempts at 0s, then after 2s and 4s, then 504. */
  method TimeoutsExhaustRetries(rest: seq<Outcome>) returns (r: Result<seq<Product>>, sleeps: seq<nat>)
    ensures r == Err(GatewayTimeout) && sleeps == [2, 4]
  {
    var attempts;
    var outcomes := [ReadTimeout, ReadTimeout, ReadTimeout] + rest;
    r, sleeps, attempts := FetchProducts(outcomes);
    assert outcomes[attempts - 1].ReadTimeout?;
  }

  /** A failure other than a read timeout is not retried, whatever would have come next. */
  method HttpErrorIsNotRetried(rest: seq<Outcome>) returns (r: Result<seq<Product>>, sleeps: seq<nat>)
    requires |rest| >= MaxRetries - 1
    ensures r == Err(ServiceUnavailable) && sleeps == []
  {
    var attempts;
    var outcomes := [HttpError] + rest;
    r, sleeps, attempts := FetchProducts(outcomes);
    assert !outcomes[0].ReadTimeout?;
    assert attempts == 1;
  }

  /** A feed that answers on the second try is decoded after one 2s pause. */
  method SecondAttemptSucceeds(tree: Entries, rest: seq<Outcome>) returns (r: Result<seq<Product>>, sleeps: seq<nat>)
    requires |rest| >= MaxRetries - 2
    ensures r == Decode(tree, Categorize) && sleeps == [2]
  {
    var attempts;
    var outcomes := [ReadTimeout, Received(tree)] + rest;
    r, sleeps, attempts := FetchProducts(outcomes);
    assert !outcomes[1].ReadTimeout? && outcomes[0].ReadTimeout?;
    assert attempts == 2;
    assert |sleeps| == 1 && sleeps[0] == 2;
  }
}
