/** The deadline-and-backoff loop of databricks/sdk/retries.py, and the retry of an idempotent cloud
    storage request in databricks/sdk/mixins/files.py. Time is counted in whole microseconds. */
module Retries {
  import opened Common

  const SECOND: int := 1_000_000

  /** A clock that does not run backwards, and the pauses it has been asked for. */
  class Clock {
    var now: int
    ghost var sleeps: seq<int>

    constructor (start: int)
      ensures now == start && sleeps == []
    {
      now, sleeps := start, [];
    }

    method Time() returns (t: int)
      modifies this`now
      ensures t == now >= old(now)
    {
      var passed :| passed >= 0;
      now := now + passed;
      t := now;
    }

    /** Sleeps at least as long as requested; a negative duration is refused with an error. */
    method Sleep(duration: int) returns (accepted: bool)
      modifies this
      ensures accepted <==> duration >= 0
      ensures sleeps == old(sleeps) + [duration]
      ensures now >= old(now) + if accepted then duration else 0
    {
      var late :| late >= 0;
      sleeps := sleeps + [duration];
      accepted := duration >= 0;
      now := now + late + if accepted then duration else 0;
    }
  }

  /** What a cloud storage 403 body says about the URL. */
  datatype ErrorBody = NoBody | UrlExpired | OtherError

  datatype Response = Response(status: int, etag: nat, body: ErrorBody, retryAfter: Option<int>)

  /** `matched` is the answer of the is_retryable callback; `network` tells a RequestException from an
      API error. */
  datatype Failure = Failure(retryAfterSecs: Option<int>, matched: bool, network: bool)

  datatype Outcome = Returned(response: Response) | Failed(failure: Failure)

  /** One execution of the operation: when it began, the bytes it sent, what the server made of it, and what
      the retry loop got to see. */
  datatype Attempt = Attempt(start: int, sent: Bytes, reply: Outcome, outcome: Outcome)

  datatype RetryResult =
    | Success(response: Response)
    | Raised(failure: Failure)
    | TimedOut(lastError: Option<Failure>)
    | SleepRefused

  const RETRYABLE_STATUS_CODES: set<int> := {408, 429, 500, 502, 503, 504}

  /** The delegate of an idempotent operation: a retryable status becomes an error. Only a throttling
      status makes that error carry a retry_after_secs. */
  function Delegate(o: Outcome): Outcome {
    if o.Returned? && o.response.status in RETRYABLE_STATUS_CODES then
      Failed(Failure(RetryAfter(o.response), false, false))
    else
      o
  }

  function RetryAfter(r: Response): Option<int> {
    if r.status !in {429, 503} then None
    else if r.retryAfter.None? then Some(1)
    else r.retryAfter
  }

  /** The retry loop sees the reply itself, except for an idempotent operation: there six statuses become
      errors, of which those for throttling ask for the pause that the reply names, or for one second. */
  ghost predicate Handled(a: Attempt, idempotent: bool) {
    if idempotent && a.reply.Returned? && a.reply.response.status in {408, 429, 500, 502, 503, 504} then
      && a.outcome.Failed? && !a.outcome.failure.matched && !a.outcome.failure.network
      && a.outcome.failure.retryAfterSecs
         == if a.reply.response.status !in {429, 503} then None
            else match a.reply.response.retryAfter
                 case Some(seconds) => Some(seconds)
                 case None => Some(1)
    else
      a.outcome == a.reply
  }

  predicate Retries(o: Outcome) {
    o.Failed? && (o.failure.retryAfterSecs.Some? || o.failure.matched)
  }

  /** Seconds asked for after the attempt-th attempt, before the random part of up to a second. */
  function Delay(attempt: nat, f: Failure): int {
    if f.retryAfterSecs.Some? then f.retryAfterSecs.value else Min(10, attempt)
  }

  /** An HTTP request whose body is a stream that every execution consumes. */
  class Request {
    const body: Bytes
    const idempotent: bool
    var position: nat
    var attempts: seq<Attempt>

    ghost predicate Valid()
      reads this
    {
      && position <= |body|
      && forall k :: 0 <= k < |attempts| ==> Handled(attempts[k], idempotent)
    }

    constructor (body: Bytes, position: nat, idempotent: bool)
      requires position <= |body|
      ensures Valid() && this.body == body && this.position == position && attempts == []
      ensures this.idempotent == idempotent
    {
      this.body, this.position, this.idempotent := body, position, idempotent;
      attempts := [];
    }

    /** Sends what is left of the body, consuming any part of it, and takes at least a microsecond. */
    method Perform(clock: Clock) returns (outcome: Outcome)
      requires Valid()
      modifies this, clock`now
      ensures Valid() && position >= old(position) && clock.now > old(clock.now)
      ensures |attempts| == |old(attempts)| + 1
      ensures var reply := attempts[|old(attempts)|].reply;
              attempts == old(attempts) + [Attempt(old(clock.now), body[old(position)..], reply, outcome)]
      ensures idempotent && outcome.Returned? ==> outcome.response.status !in RETRYABLE_STATUS_CODES
    {
      var raw: Outcome := *;
      outcome := if idempotent then Delegate(raw) else raw;
      attempts := attempts + [Attempt(clock.now, body[position..], raw, outcome)];
      var consumed: nat :| position + consumed <= |body|;
      position := position + consumed;
      var duration :| duration >= 0;
      clock.now := clock.now + 1 + duration;
    }

    method Seek(to: nat)
      requires Valid() && to <= |body|
      modifies this`position
      ensures Valid() && position == to
    {
      position := to;
    }
  }

  /** Every attempt but the last was retried, began before the deadline, and the next one began no
      earlier than the requested delay after it. */
  ghost predicate Paced(attempts: seq<Attempt>, t0: int, timeout: int) {
    && (forall k :: 0 <= k < |attempts| ==> t0 <= attempts[k].start < t0 + timeout)
    && (forall j, k :: 0 <= j < |attempts| && 0 <= k < |attempts| && k == j + 1 ==>
          Follows(attempts[j], k, attempts[k].start))
  }

  /** `before` was the attempt-th one, was to be retried, and `time` is past its pause. */
  ghost predicate Follows(before: Attempt, attempt: nat, time: int) {
    && Retries(before.outcome)
    && time > before.start + Delay(attempt, before.outcome.failure) * SECOND
  }

  /** A pause is asked for after every retried attempt, in order. */
  ghost predicate Slept(attempts: seq<Attempt>, sleeps: seq<int>) {
    && |sleeps| <= |attempts|
    && forall k :: 0 <= k < |sleeps| ==>
         Retries(attempts[k].outcome) && PauseFor(attempts[k].outcome.failure, k + 1, sleeps[k])
  }

  /** The pause is as long as the failure or the number of the attempt calls for, or up to a second more. */
  ghost predicate PauseFor(f: Failure, attempt: nat, pause: int) {
    Delay(attempt, f) * SECOND <= pause < (Delay(attempt, f) + 1) * SECOND
  }

  lemma PacedExtends(attempts: seq<Attempt>, next: Attempt, t0: int, timeout: int)
    requires Paced(attempts, t0, timeout) && t0 <= next.start < t0 + timeout
    requires attempts != [] ==> Follows(attempts[|attempts| - 1], |attempts|, next.start)
    ensures Paced(attempts + [next], t0, timeout)
  {
  }

  /** What a result says about the last attempt. */
  ghost predicate Concludes(attempts: seq<Attempt>, result: RetryResult, late: bool) {
    match result
    case Success(response) => attempts != [] && attempts[|attempts| - 1].outcome == Returned(response)
    case Raised(failure) =>
      && attempts != [] && attempts[|attempts| - 1].outcome == Failed(failure)
      && !Retries(attempts[|attempts| - 1].outcome)
    case TimedOut(lastError) =>
      late && if attempts == [] then lastError == None
              else Retries(attempts[|attempts| - 1].outcome)
                   && lastError == Some(attempts[|attempts| - 1].outcome.failure)
    case SleepRefused =>
      && attempts != [] && Retries(attempts[|attempts| - 1].outcome)
      && Delay(|attempts|, attempts[|attempts| - 1].outcome.failure) < 0
  }

  ghost predicate SameBytes(attempts: seq<Attempt>, bytes: Bytes) {
    forall k :: 0 <= k < |attempts| ==> attempts[k].sent == bytes
  }

  /** What a failed attempt leads to: nothing more, or a rewind and a pause. */
  method PauseAfter(err: Failure, attempt: nat, request: Request, clock: Clock, rewindTo: Option<nat>)
    returns (reason: bool, accepted: bool, ghost pause: int)
    requires request.Valid() && (rewindTo.Some? ==> rewindTo.value <= |request.body|)
    modifies request`position, clock
    ensures request.Valid() && clock.now >= old(clock.now)
    ensures reason <==> Retries(Failed(err))
    ensures !reason ==> clock.sleeps == old(clock.sleeps) && request.position == old(request.position)
    ensures reason ==>
              && clock.sleeps == old(clock.sleeps) + [pause] && PauseFor(err, attempt, pause)
              && (rewindTo.Some? ==> request.position == rewindTo.value)
              && (accepted <==> Delay(attempt, err) >= 0)
              && (accepted ==> clock.now >= old(clock.now) + Delay(attempt, err) * SECOND)
  {
    var sleep := Min(10, attempt);
    accepted, pause := false, 0;
    if err.retryAfterSecs.Some? {
      sleep := err.retryAfterSecs.value;
      reason := true;
    } else {
      reason := err.matched;
    }
    if reason {
      if rewindTo.Some? {
        request.Seek(rewindTo.value);
      }
      var jitter: nat :| jitter < SECOND;
      pause := sleep * SECOND + jitter;
      accepted := clock.Sleep(sleep * SECOND + jitter);
    }
  }

  /** The retry loop. `rewindTo` is the before_retry hook of the callers that have one: it puts the
      body back to the given position. */
  method Retried(request: Request, clock: Clock, timeout: int, rewindTo: Option<nat>)
    returns (result: RetryResult, ghost slept: seq<int>)
    requires request.Valid() && request.attempts == []
    requires rewindTo.Some? ==> rewindTo.value == request.position
    modifies request, clock
    ensures request.Valid()
    ensures clock.now >= old(clock.now)
    ensures exists t0 :: t0 >= old(clock.now) && Paced(request.attempts, t0, timeout)
                         && Concludes(request.attempts, result, clock.now >= t0 + timeout)
    ensures clock.sleeps == old(clock.sleeps) + slept && Slept(request.attempts, slept)
    ensures |slept| == |request.attempts| - if result.Success? || result.Raised? then 1 else 0
    ensures rewindTo.Some? ==> SameBytes(request.attempts, old(request.body[request.position..]))
    ensures request.idempotent && result.Success? ==> result.response.status !in RETRYABLE_STATUS_CODES
  {
    hide Handled, PauseFor;
    slept := [];
    var t0 := clock.Time();
    var deadline := t0 + timeout;
    var attempt := 1;
    var lastErr: Option<Failure> := None;
    var time := clock.Time();
    while time < deadline
      invariant request.Valid() && clock.now == time >= t0
      invariant attempt == |request.attempts| + 1
      invariant clock.sleeps == old(clock.sleeps) + slept
      invariant |slept| == |request.attempts| && Slept(request.attempts, slept)
      invariant Paced(request.attempts, t0, timeout)
      invariant Concludes(request.attempts, TimedOut(lastErr), true)
      invariant request.attempts != [] ==> Follows(Last(request.attempts), |request.attempts|, time)
      invariant rewindTo.Some? ==> request.position == rewindTo.value == old(request.position)
      invariant rewindTo.Some? ==> SameBytes(request.attempts, old(request.body[request.position..]))
      decreases deadline - time
    {
      ghost var before := request.attempts;
      var outcome := request.Perform(clock);
      PacedExtends(before, Last(request.attempts), t0, timeout);
      SleptExtends(before, slept, Last(request.attempts));
      if outcome.Returned? {
        return Success(outcome.response), slept;
      }
      var err := outcome.failure;
      lastErr := Some(err);
      var reason, accepted;
      ghost var pause;
      reason, accepted, pause := PauseAfter(err, attempt, request, clock, rewindTo);
      if !reason {
        return Raised(err), slept;
      }
      slept := slept + [pause];
      if !accepted {
        return SleepRefused, slept;
      }
      attempt := attempt + 1;
      time := clock.Time();
    }
    return TimedOut(lastErr), slept;
  }

  lemma SleptExtends(attempts: seq<Attempt>, sleeps: seq<int>, next: Attempt)
    requires Slept(attempts, sleeps) && |sleeps| == |attempts|
    ensures Slept(attempts + [next], sleeps)
    ensures Retries(next.outcome) ==>
              forall pause :: PauseFor(next.outcome.failure, |attempts| + 1, pause) ==>
                Slept(attempts + [next], sleeps + [pause])
  {
  }

  ghost function Last(attempts: seq<Attempt>): Attempt
    requires attempts != []
  {
    attempts[|attempts| - 1]
  }

  // ---------- How often an operation can be attempted ----------

  /** min(10, 1) + ... + min(10, n): the seconds slept before attempt n + 1. */
  function Backoff(n: nat): (total: nat) {
    if n == 0 then 0 else Backoff(n - 1) + Min(10, n)
  }

  /** The errors leave the pauses to the loop. */
  ghost predicate Unthrottled(attempts: seq<Attempt>) {
    forall k :: 0 <= k < |attempts| && attempts[k].outcome.Failed? ==>
      attempts[k].outcome.failure.retryAfterSecs.None?
  }

  lemma {:induction false} AttemptsFollowBackoff(attempts: seq<Attempt>, t0: int, timeout: int, k: nat)
    requires Paced(attempts, t0, timeout) && Unthrottled(attempts) && k < |attempts|
    ensures attempts[k].start >= t0 + Backoff(k) * SECOND
  {
    if k > 0 {
      AttemptsFollowBackoff(attempts, t0, timeout, k - 1);
      assert Follows(attempts[k - 1], k, attempts[k].start);
    }
  }

  lemma {:induction false} BackoffClosedForm(n: nat)
    ensures 2 * Backoff(n) == if n <= 10 then n * (n + 1) else 20 * n - 90
  {
    if n > 0 {
      BackoffClosedForm(n - 1);
    }
  }

  /** The timeout bounds the number of attempts: the pauses between n of them fit into it, so from the
      eleventh on every further attempt needs another ten seconds. */
  lemma AttemptsAreBounded(attempts: seq<Attempt>, t0: int, timeout: int)
    requires Paced(attempts, t0, timeout) && Unthrottled(attempts) && attempts != []
    ensures Backoff(|attempts| - 1) * SECOND < timeout
    ensures |attempts| > 10 ==> (10 * |attempts| - 55) * SECOND < timeout
  {
    AttemptsFollowBackoff(attempts, t0, timeout, |attempts| - 1);
    BackoffClosedForm(|attempts| - 1);
  }

  /** After a throttled attempt of an idempotent request the next one waits as long as the reply asks for. */
  lemma ThrottledAttemptsWait(attempts: seq<Attempt>, t0: int, timeout: int, k: nat, seconds: int)
    requires Paced(attempts, t0, timeout) && k + 1 < |attempts| && Handled(attempts[k], true)
    requires attempts[k].reply.Returned? && attempts[k].reply.response.status in {429, 503}
    requires attempts[k].reply.response.retryAfter == Some(seconds)
             || (attempts[k].reply.response.retryAfter == None && seconds == 1)
    ensures attempts[k + 1].start > attempts[k].start + seconds * SECOND
  {
    assert Follows(attempts[k], k + 1, attempts[k + 1].start);
  }

  /** Of the statuses an idempotent request treats as retryable only the two throttling ones are
      attempted again; the others end the retries at once. */
  lemma OnlyThrottlingIsRetried(response: Response)
    requires response.status in RETRYABLE_STATUS_CODES
    ensures Retries(Delegate(Returned(response))) <==> response.status in {429, 503}
    ensures RETRYABLE_STATUS_CODES == {408, 429, 500, 502, 503, 504}
  {
  }
}
