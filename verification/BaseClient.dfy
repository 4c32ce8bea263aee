/** Requests to the workspace, with the retries of databricks/sdk/_base_client.py. */
module BaseClient {
  import opened Common
  import opened Retries

  datatype Payload = NoData | SeekableStream | OtherStream

  /** Performs a request. A seekable body is put back to where it stood before every further attempt; a
      body that cannot be put back gets a single attempt. */
  method Do(request: Request, payload: Payload, clock: Clock, timeout: int)
    returns (result: RetryResult, ghost slept: seq<int>)
    requires request.Valid() && request.attempts == [] && !request.idempotent
    requires payload.NoData? ==> request.body == []
    modifies request, clock
    ensures SameBytes(request.attempts, old(request.body[request.position..]))
    ensures clock.sleeps == old(clock.sleeps) + slept && Slept(request.attempts, slept)
    ensures payload.OtherStream? ==>
              && |request.attempts| == 1
              && result == match request.attempts[0].outcome
                           case Returned(response) => Success(response)
                           case Failed(failure) => Raised(failure)
    ensures !payload.OtherStream? ==>
              exists t0 :: t0 >= old(clock.now) && Paced(request.attempts, t0, timeout)
                           && Concludes(request.attempts, result, clock.now >= t0 + timeout)
    ensures result.Success? ==>
              request.attempts != [] && Last(request.attempts).outcome == Returned(result.response)
  {
    match payload {
      case NoData =>
        result, slept := Retried(request, clock, timeout, Some(request.position));
      case SeekableStream =>
        var initialDataPosition := request.position;
        result, slept := Retried(request, clock, timeout, Some(initialDataPosition));
      case OtherStream =>
        slept := [];
        var outcome := request.Perform(clock);
        result := if outcome.Returned? then Success(outcome.response) else Raised(outcome.failure);
    }
  }
}
