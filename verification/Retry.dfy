// The retry state of rest/with_retry.go and the three loops of rest/request.go that drive it.
module Retry {
  import opened Wrappers
  import opened RetrySpec

  // wait is a Duration; attempt numbers the attempt that led to the retry.
  datatype RetryAfter = RetryAfter(wait: int, attempt: nat)

  // The two errors a history of outcomes leaves behind.
  ghost predicate Remembers(tracked: seq<Option<Error>>, currentErr: Option<Error>, previousErr: Option<Error>) {
    if tracked == [] then currentErr.None? && previousErr.None?
    else currentErr == tracked[|tracked| - 1] && previousErr == LatestError(tracked[..|tracked| - 1])
  }

  class WithRetry {
    const maxRetries: int
    var attempts: nat
    var retryAfter: Option<RetryAfter>
    var previousErr: Option<Error>
    var currentErr: Option<Error>
    // Every outcome reported so far.
    ghost var tracked: seq<Option<Error>>

    // currentErr is the latest outcome, previousErr the most recent error before it.
    ghost predicate Valid()
      reads this
    {
      Remembers(tracked, currentErr, previousErr)
    }

    constructor (maxRetries: int)
      ensures Valid() && this.maxRetries == maxRetries && attempts == 0 && retryAfter.None? && tracked == []
    {
      this.maxRetries := maxRetries;
      attempts, retryAfter, previousErr, currentErr := 0, None, None, None;
      tracked := [];
    }

    method TrackPreviousError(err: Option<Error>)
      requires Valid()
      modifies this`previousErr, this`currentErr, this`tracked
      ensures Valid() && tracked == old(tracked) + [err]
    {
      if currentErr.Some? { previousErr := currentErr; }
      currentErr := err;
      tracked := tracked + [err];
      assert tracked[..|tracked| - 1] == old(tracked);
    }

    // hasRequest says whether there is an HTTP request, reader whether its body is an opaque
    // reader; retryable is nil for callers that have no such function.
    method IsNextRetry(hasRequest: bool, reader: bool, response: Option<Response>, err: Option<Error>,
                       retryable: Option<Error -> bool>) returns (again: bool)
      requires Valid()
      modifies this
      ensures Valid() && tracked == old(tracked) + [err]
      ensures again <==>
        && hasRequest && (response.Some? || err.Some?) && !reader
        && old(attempts) + 1 <= maxRetries
        && (if err.Some? then retryable.Some? && retryable.value(err.value)
            else CheckWait(response.value).Some?)
      ensures attempts == old(attempts) + if hasRequest && (response.Some? || err.Some?) && !reader then 1 else 0
      ensures again ==> retryAfter == Some(RetryAfter(
        Duration(if err.Some? then 1 else CheckWait(response.value).value), attempts))
    {
      TrackPreviousError(err);
      if !hasRequest || (response.None? && err.None?) { return false; }
      if reader { return false; }

      attempts := attempts + 1;
      retryAfter := Some(RetryAfter(0, attempts));
      if attempts > maxRetries { return false; }

      var resp := response;
      var errIsRetryable := false;
      if retryable.Some? && err.Some? && retryable.value(err.value) {
        errIsRetryable := true;
        resp := Some(RetryAfterResponse);
      }
      if err.Some? && !errIsRetryable { return false; }

      var seconds := CheckWait(resp.value);
      if seconds.None? { return false; }
      retryAfter := Some(RetryAfter(Duration(seconds.value), attempts));
      again := true;
    }
  }

  // net.IsConnectionReset, IsProbableEOF and IsTimeout look through a url.Error.
  function Cause(err: Error): Error {
    match err
    case UrlError(_, Some(inner)) => Cause(inner)
    case _ => err
  }

  // A GET is retried after a connection reset or an unexpected end of the connection.
  function RetryableRequest(isGet: bool): Error -> bool {
    (err: Error) => isGet && Cause(err).NetError? && (Cause(err).connectionReset || Cause(err).probableEOF)
  }

  function RetryableWatch(): Error -> bool {
    (err: Error) => Cause(err).NetError? && (Cause(err).probableEOF || Cause(err).timeout)
  }

  function NeverRetry(): Error -> bool {
    (err: Error) => false
  }

  // Which errors are retryable, through any number of url.Errors: for a GET a connection reset or an
  // unexpected end, for a Watch an unexpected end or a timeout, and for other requests and Stream none.
  // No other kind of error ever is.
  lemma {:induction false} RetryableMeaning(err: Error, isGet: bool)
    ensures err.NetError? ==>
      && (RetryableRequest(isGet)(err) <==> isGet && (err.connectionReset || err.probableEOF))
      && (RetryableWatch()(err) <==> err.probableEOF || err.timeout)
    ensures err.UrlError? && err.inner.Some? ==>
      && RetryableRequest(isGet)(err) == RetryableRequest(isGet)(err.inner.value)
      && RetryableWatch()(err) == RetryableWatch()(err.inner.value)
    ensures !err.NetError? && !(err.UrlError? && err.inner.Some?) ==>
      !RetryableRequest(isGet)(err) && !RetryableWatch()(err)
    ensures !NeverRetry()(err) && !RetryableRequest(false)(err)
  {
  }

  datatype WatchResult = Streaming(response: Response) | EmptyWatch | WatchFailed(err: Error)

  // What a reply that ends the exchange means to a caller of Watch, and of Stream.
  // streamErr is what is wrong with the content type of a stream, if anything.
  function WatchAnswer(reply: Reply, retryable: Error -> bool, responseErr: Response -> Error,
                       streamErr: Response -> Option<Error>, previous: Option<Error>): WatchResult {
    match reply
    case Got(resp) =>
      if resp.status == 200 then
        if streamErr(resp).Some? then WatchFailed(streamErr(resp).value) else Streaming(resp)
      else WatchFailed(WrapPrevious(Some(responseErr(resp)), previous).value)
    case Failed(err) =>
      if retryable(err) then EmptyWatch else WatchFailed(WrapPrevious(Some(err), previous).value)
  }

  function StreamAnswer(reply: Reply, responseErr: Response -> Error): Result<Response, Error> {
    match reply
    case Got(resp) => if 200 <= resp.status < 300 then Ok(resp) else Err(responseErr(resp))
    case Failed(err) => Err(err)
  }

  // Watch gives a stream exactly for a 200 that can be streamed, and hides exactly the final errors
  // that it would have retried; Stream gives the response exactly for a 2xx.
  lemma AnswerMeaning(reply: Reply, retryable: Error -> bool, responseErr: Response -> Error,
                      streamErr: Response -> Option<Error>, previous: Option<Error>)
    ensures var w := WatchAnswer(reply, retryable, responseErr, streamErr, previous);
            var s := StreamAnswer(reply, responseErr);
            && (w.Streaming? <==> reply.Got? && reply.response.status == 200 && streamErr(reply.response).None?)
            && (w.Streaming? ==> w.response == reply.response)
            && (w.EmptyWatch? <==> reply.Failed? && retryable(reply.err))
            && (w.WatchFailed? && reply.Got? && reply.response.status == 200 ==>
                  Some(w.err) == streamErr(reply.response))
            && (w.WatchFailed? && reply.Got? && reply.response.status != 200 ==>
                  w.err == responseErr(reply.response) || Unwrapped(w.err) == Some(responseErr(reply.response)))
            && (w.WatchFailed? && reply.Failed? ==> w.err == reply.err || Unwrapped(w.err) == Some(reply.err))
            && (s.Ok? <==> reply.Got? && reply.response.status / 100 == 2)
            && (s.Ok? ==> s.value == reply.response)
            && (s.Err? ==> s.error == if reply.Failed? then reply.err else responseErr(reply.response))
  {
    if reply.Got? {
      WrapPreviousMeaning(Some(responseErr(reply.response)), previous);
    } else {
      WrapPreviousMeaning(Some(reply.err), previous);
    }
  }

  class Request {
    const setup: Setup
    const world: World
    const isGet: bool
    // Errors from building the request, and from the check of its namespace.
    const err: Option<Error>
    const preflightErr: Option<Error>
    // The error that a response which ends the exchange stands for.
    const responseErr: Response -> Error
    // The error of a response that cannot be streamed, because nothing decodes its content type.
    const streamErr: Response -> Option<Error>
    // What is left in the reader, if the body is one.
    var unread: seq<Byte>
    var log: seq<Event>

    constructor (setup: Setup, world: World, isGet: bool, err: Option<Error>, preflightErr: Option<Error>,
                 responseErr: Response -> Error, streamErr: Response -> Option<Error>)
      ensures this.setup == setup && this.world == world && this.isGet == isGet
      ensures this.err == err && this.preflightErr == preflightErr
      ensures this.responseErr == responseErr && this.streamErr == streamErr
      ensures log == [] && (setup.body.Some? ==> unread == setup.body.value)
    {
      this.setup, this.world, this.isGet := setup, world, isGet;
      this.err, this.preflightErr, this.responseErr, this.streamErr := err, preflightErr, responseErr, streamErr;
      unread := if setup.body.Some? then setup.body.value else [];
      log := [];
    }

    // The wait for the rate limiter ahead of the loop fails.
    ghost predicate FirstWaitRefused() {
      setup.limited && world.throttleErr(0).Some?
    }

    method TryThrottle(i: nat) returns (refused: Option<Error>)
      modifies this`log
      ensures log == Emit(old(log), Throttled, setup.limited)
      ensures refused == if setup.limited then world.throttleErr(i) else None
    {
      if !setup.limited { return None; }
      log := log + [Throttled];
      refused := world.throttleErr(i);
    }

    // Before, ahead of attempt i.
    method Before(retry: WithRetry, i: nat) returns (abort: Option<Error>)
      requires retry.Valid()
      modifies this`log, retry`previousErr, retry`currentErr, retry`tracked
      ensures retry.Valid()
      ensures abort == if world.contextErr(i).Some? then world.contextErr(i)
                       else if retry.retryAfter.Some? && setup.limited then world.throttleErr(i)
                       else None
      ensures world.contextErr(i).Some? ==> log == old(log)
      ensures world.contextErr(i).None? ==>
        log == AfterPrelude(setup, old(log), retry.retryAfter.Some?,
                            if retry.retryAfter.Some? then Max(world.backoff(i), retry.retryAfter.value.wait)
                            else world.backoff(i))
      ensures abort.None? ==> retry.tracked == old(retry.tracked)
      ensures abort.Some? ==> retry.tracked == old(retry.tracked) + [
        if world.contextErr(i).Some? then world.contextErr(i) else world.contextErrAfterThrottle(i)]
    {
      if world.contextErr(i).Some? {
        retry.TrackPreviousError(world.contextErr(i));
        return world.contextErr(i);
      }
      if retry.retryAfter.None? {
        log := log + [Slept(world.backoff(i))];
        return None;
      }
      var delay := world.backoff(i);
      if retry.retryAfter.value.wait > delay { delay := retry.retryAfter.value.wait; }
      log := log + [Slept(delay)];
      abort := TryThrottle(i);
      if abort.Some? { retry.TrackPreviousError(world.contextErrAfterThrottle(i)); }
    }

    // newHTTPRequest: the payload the request will carry.
    method NewHTTPRequest(i: nat) returns (r: Result<seq<Byte>, Error>)
      requires setup.body.Some? ==> unread == setup.body.value
      ensures r.Ok? ==> r.value == Payload(setup) && IsWholeBody(setup, r.value)
      ensures (if r.Err? then Some(r.error) else None)
        == if setup.body.Some? && setup.bodyBytes.Some? then Some(BothBodies) else world.buildErr(i)
    {
      var payload: seq<Byte> := [];
      if setup.body.Some? && setup.bodyBytes.Some? {
        return Err(BothBodies);
      } else if setup.body.Some? {
        payload := unread;
      } else if setup.bodyBytes.Some? {
        payload := setup.bodyBytes.value;
      }
      if world.buildErr(i).Some? { return Err(world.buildErr(i).value); }
      r := Ok(payload);
    }

    // client.Do: sending reads the reader to its end.
    method Send(i: nat, payload: seq<Byte>) returns (reply: Reply)
      modifies this`log, this`unread
      ensures reply == world.reply(i) && log == old(log) + [Sent(payload)]
      ensures setup.body.None? ==> unread == old(unread)
    {
      if setup.body.Some? { unread := []; }
      log := log + [Sent(payload)];
      reply := world.reply(i);
    }

    method After(retry: WithRetry)
      modifies this`log, retry`retryAfter
      ensures retry.retryAfter.None?
      ensures log == Emit(Emit(Emit(old(log), ResultMetric, true), RetryMetric, old(retry.retryAfter).Some?),
                          BackoffUpdated, setup.hasBase)
    {
      var isRetry := retry.retryAfter.Some?;
      retry.retryAfter := None;
      log := log + [ResultMetric];
      if isRetry { log := log + [RetryMetric]; }
      if setup.hasBase { log := log + [BackoffUpdated]; }
    }

    // What holds before attempt i of a loop: the attempts so far are a course, they are what the
    // log shows, and the retry state is set for the next one.
    ghost predicate OnCourse(retry: WithRetry, retryable: Error -> bool, head: seq<Event>, sleeps: seq<int>)
      reads this, retry
    {
      var i := |sleeps|;
      && retry.Valid()
      && retry.maxRetries == setup.maxRetries
      && retry.attempts == i
      && retry.tracked == Outcomes(world, i)
      && log == Attempts(setup, head, sleeps)
      && (i == 0 ==> retry.retryAfter.None?)
      && (setup.body.Some? ==> i == 0 && unread == setup.body.value)
      && Course(setup, world, retryable, sleeps)
      && (i > 0 ==> Again(setup, world, retryable, i - 1))
      && (i > 0 ==> retry.retryAfter.Some?)
      && (i > 0 ==> retry.retryAfter.value.wait == Duration(RetryDelay(world.reply(i - 1), retryable).value))
    }

    // What one pass of a loop, up to the reply, leaves behind: either it was aborted and nothing was
    // sent, or there is a reply to attempt number |sleeps| - 1 and it has been accounted for.
    ghost predicate Replied(retry: WithRetry, retryable: Error -> bool, head: seq<Event>, sleeps: seq<int>)
      reads this, retry
    {
      && sleeps != []
      && retry.Valid()
      && retry.maxRetries == setup.maxRetries
      && retry.attempts == |sleeps| - 1
      && retry.tracked == Outcomes(world, |sleeps| - 1)
      && retry.retryAfter.None?
      && log == Attempts(setup, head, sleeps)
      && (setup.body.Some? ==> |sleeps| == 1)
      && Course(setup, world, retryable, sleeps)
    }

    // Before, newHTTPRequest, Do and After.
    method TryOnce(retry: WithRetry, ghost retryable: Error -> bool, ghost head: seq<Event>, ghost sleeps: seq<int>)
      returns (r: Result<Reply, Error>, early: bool, ghost sleeps': seq<int>)
      requires OnCourse(retry, retryable, head, sleeps)
      modifies this, retry
      ensures r.Ok? ==> |sleeps'| == |sleeps| + 1 && Replied(retry, retryable, head, sleeps')
      ensures r.Ok? ==> r.value == world.reply(|sleeps|)
      ensures r.Err? ==> sleeps' == sleeps && retry.Valid()
      ensures r.Err? ==> Refusal(setup, world, |sleeps|) == Some(r.error)
      ensures r.Err? ==> early == RefusedEarly(setup, world, |sleeps|)
      ensures r.Err? ==> log == FinalLog(setup, world, retryable, head, sleeps, false, false)
      ensures r.Err? && early ==> retry.previousErr == LatestError(Outcomes(world, |sleeps|))
    {
      sleeps' := sleeps;
      var payload;
      payload, early := Prepare(retry, retryable, head, sleeps);
      if payload.Err? { return Err(payload.error), early, sleeps'; }
      var reply := SendOne(retry, retryable, head, sleeps, payload.value);
      sleeps' := sleeps + [NextSleep(world, retryable, |sleeps|)];
      CourseGrows(setup, world, retryable, sleeps);
      r := Ok(reply);
    }

    // Before and newHTTPRequest: the payload of the next attempt, if it is not refused.
    method Prepare(retry: WithRetry, ghost retryable: Error -> bool, ghost head: seq<Event>, ghost sleeps: seq<int>)
      returns (r: Result<seq<Byte>, Error>, early: bool)
      requires OnCourse(retry, retryable, head, sleeps)
      modifies this`log, retry`previousErr, retry`currentErr, retry`tracked
      ensures retry.Valid()
      ensures Refusal(setup, world, |sleeps|) == if r.Err? then Some(r.error) else None
      ensures early == RefusedEarly(setup, world, |sleeps|)
      ensures r.Err? ==> log == FinalLog(setup, world, retryable, head, sleeps, false, false)
      ensures early ==> r.Err? && retry.previousErr == LatestError(Outcomes(world, |sleeps|))
      ensures r.Ok? ==> r.value == Payload(setup) && retry.tracked == old(retry.tracked)
      ensures r.Ok? ==> log == AfterPrelude(setup, old(log), |sleeps| > 0, NextSleep(world, retryable, |sleeps|))
    {
      ghost var i := |sleeps|;
      assert NextSleep(world, retryable, i)
          == if i > 0 then Max(world.backoff(i), retry.retryAfter.value.wait) else world.backoff(i);
      var abort := Before(retry, retry.attempts);
      early := abort.Some?;
      if abort.Some? {
        assert retry.tracked[..|retry.tracked| - 1] == Outcomes(world, i);
        return Err(abort.value), early;
      }
      r := NewHTTPRequest(retry.attempts);
    }

    // Do and After.
    method SendOne(retry: WithRetry, ghost retryable: Error -> bool, ghost head: seq<Event>, ghost sleeps: seq<int>,
                   payload: seq<Byte>) returns (reply: Reply)
      requires retry.attempts == |sleeps| && (retry.retryAfter.Some? <==> |sleeps| > 0) && payload == Payload(setup)
      requires log == AfterPrelude(setup, Attempts(setup, head, sleeps), |sleeps| > 0,
                                   NextSleep(world, retryable, |sleeps|))
      modifies this`log, this`unread, retry`retryAfter
      ensures reply == world.reply(|sleeps|) && retry.retryAfter.None?
      ensures log == Attempts(setup, head, sleeps + [NextSleep(world, retryable, |sleeps|)])
    {
      reply := Send(retry.attempts, payload);
      After(retry);
      ghost var more := sleeps + [NextSleep(world, retryable, |sleeps|)];
      assert more[..|sleeps|] == sleeps && more[|sleeps|] == NextSleep(world, retryable, |sleeps|);
    }

    // IsNextRetry on the reply, as the loops call it: yes exactly if the reply asks for another
    // attempt and there is one left to make.
    method GoOn(retry: WithRetry, reply: Reply, retryable: Error -> bool,
                ghost head: seq<Event>, ghost sleeps: seq<int>) returns (again: bool)
      requires Replied(retry, retryable, head, sleeps) && reply == world.reply(|sleeps| - 1)
      modifies retry
      ensures again <==> Again(setup, world, retryable, |sleeps| - 1)
      ensures again ==> OnCourse(retry, retryable, head, sleeps)
      ensures !again ==> retry.Valid() && retry.previousErr == LatestError(Outcomes(world, |sleeps| - 1))
    {
      again := retry.IsNextRetry(true, setup.body.Some?, reply.Resp(), reply.Err(), Some(retryable));
      assert retry.tracked[..|retry.tracked| - 1] == Outcomes(world, |sleeps| - 1);
    }

    // How a loop ends: the course is over and the log is exactly what belongs to it.
    ghost predicate Ended(retryable: Error -> bool, head: seq<Event>, sleeps: seq<int>, finished: bool, consumer: bool)
      reads this`log
    {
      && Over(setup, world, retryable, sleeps, finished)
      && log == FinalLog(setup, world, retryable, head, sleeps, finished, consumer)
    }

    // However a loop ends, these are its bounds and accounts, and what it sent was the whole body.
    lemma EndedTotals(retryable: Error -> bool, head: seq<Event>, sleeps: seq<int>, finished: bool, consumer: bool)
      requires Ended(retryable, head, sleeps, finished, consumer)
      ensures Since(head, log, Sends) == |sleeps| <= Max(setup.maxRetries, 0) + 1
      ensures setup.body.Some? ==> Since(head, log, Sends) <= 1
      ensures Since(head, log, Results) == |sleeps|
      ensures Since(head, log, Retries) == Max(|sleeps| - 1, 0)
      ensures 0 <= Since(head, log, Consumptions) <= 1
      ensures WholeSince(setup, head, log) && InShape(setup, head, log)
    {
      ExchangeTotals(setup, world, retryable, head, sleeps, finished, consumer);
      WholeExchange(setup, world, retryable, head, sleeps, finished, consumer);
      ExchangeInShape(setup, world, retryable, head, sleeps, finished, consumer);
    }

    // request, the loop behind Do and DoRaw. finished means that the exchange ran to its end, not
    // that it succeeded: otherwise it was given up before an attempt.
    method Execute() returns (result: Option<Error>, ghost sleeps: seq<int>, ghost finished: bool)
      requires setup.body.Some? ==> unread == setup.body.value
      modifies this
      ensures !finished ==> result.Some?
      ensures finished ==> err.None? && preflightErr.None? && !FirstWaitRefused()
      ensures err.Some? ==> result == err && log == old(log)
      ensures err.None? && preflightErr.Some? ==> result == preflightErr && log == old(log)
      ensures err.None? && preflightErr.None? ==>
        var head := Emit(old(log), Throttled, setup.limited);
        if FirstWaitRefused() then log == head && result == world.throttleErr(0)
        else Ended(RetryableRequest(isGet), head, sleeps, finished, true)
             && ResultOf(result, sleeps, finished)
    {
      sleeps, finished := [], false;
      if err.Some? { return err, sleeps, finished; }
      if preflightErr.Some? { return preflightErr, sleeps, finished; }
      var refused := TryThrottle(0);
      if refused.Some? { return refused, sleeps, finished; }

      ghost var head := log;
      var f := RetryableRequest(isGet);
      var retry := new WithRetry(setup.maxRetries);
      while true
        invariant fresh(retry) && OnCourse(retry, f, head, sleeps)
        decreases Max(setup.maxRetries, 0) + 1 - |sleeps|
      {
        var done;
        done, result, sleeps, finished := ExecuteOnce(retry, f, head, sleeps);
        if done { return; }
      }
    }

    // What request answers: the error of the last attempt together with the most recent one before
    // it, or the error for which the exchange was given up.
    ghost predicate ResultOf(result: Option<Error>, sleeps: seq<int>, finished: bool) {
      if finished then
        && sleeps != []
        && result == WrapPrevious(world.reply(|sleeps| - 1).Err(), LatestError(Outcomes(world, |sleeps| - 1)))
      else
        result == GivenUp(setup, world, |sleeps|)
    }

    // The body of the loop.
    method ExecuteOnce(retry: WithRetry, f: Error -> bool, ghost head: seq<Event>, ghost sleeps: seq<int>)
      returns (done: bool, result: Option<Error>, ghost sleeps': seq<int>, ghost finished: bool)
      requires OnCourse(retry, f, head, sleeps)
      modifies this, retry
      ensures !done ==> OnCourse(retry, f, head, sleeps')
      ensures !done ==> |sleeps| < |sleeps'| <= Max(setup.maxRetries, 0) + 1
      ensures done ==> Ended(f, head, sleeps', finished, true) && ResultOf(result, sleeps', finished)
    {
      result := None;
      var r, early;
      r, early, sleeps' := TryOnce(retry, f, head, sleeps);
      if r.Err? {
        result := Some(r.error);
        if early { result := WrapPreviousError(retry, result); }
        return true, result, sleeps', false;
      }
      CourseBound(setup, world, f, sleeps');
      var again := GoOn(retry, r.value, f, head, sleeps');
      done, finished := !again, !again;
      if done {
        if r.value.Got? { log := log + [Consumed]; }
        result := WrapPreviousError(retry, r.value.Err());
      }
    }

    // See WrapPreviousMeaning for what the answer tells.
    method WrapPreviousError(retry: WithRetry, final: Option<Error>) returns (wrapped: Option<Error>)
      ensures wrapped == final || (wrapped.Some? && Unwrapped(wrapped.value) == final)
      ensures wrapped == WrapPrevious(final, retry.previousErr)
    {
      if final.None? || retry.previousErr.None? { return final; }
      if final.value.text == retry.previousErr.value.text { return final; }
      var previousErr := retry.previousErr.value;
      if previousErr.UrlError? && previousErr.inner.Some? { previousErr := previousErr.inner.value; }
      wrapped := Some(WithPrevious(final.value.text + " - error from a previous attempt: " + previousErr.text,
                                   final.value, previousErr));
    }

    // Watch. The first attempt is not rate limited; the retries are, since Before throttles them.
    method Watch() returns (result: WatchResult, ghost sleeps: seq<int>, ghost finished: bool)
      requires setup.body.Some? ==> unread == setup.body.value
      modifies this
      ensures err.Some? ==> !finished && result == WatchFailed(err.value) && log == old(log)
      ensures err.None? ==> Ended(RetryableWatch(), old(log), sleeps, finished, false)
      ensures finished ==> result == WatchAnswer(world.reply(|sleeps| - 1), RetryableWatch(), responseErr, streamErr,
                                                 LatestError(Outcomes(world, |sleeps| - 1)))
      ensures err.None? && !finished ==> result.WatchFailed? && Some(result.err) == GivenUp(setup, world, |sleeps|)
    {
      sleeps, finished := [], false;
      if err.Some? { return WatchFailed(err.value), sleeps, finished; }
      var f := RetryableWatch();
      ghost var head := log;
      var retry := new WithRetry(setup.maxRetries);
      while true
        invariant fresh(retry) && OnCourse(retry, f, head, sleeps)
        decreases Max(setup.maxRetries, 0) + 1 - |sleeps|
      {
        var done;
        done, result, sleeps, finished := WatchOnce(retry, f, head, sleeps);
        if done { return; }
      }
    }

    // The body of the loop.
    method WatchOnce(retry: WithRetry, f: Error -> bool, ghost head: seq<Event>, ghost sleeps: seq<int>)
      returns (done: bool, result: WatchResult, ghost sleeps': seq<int>, ghost finished: bool)
      requires OnCourse(retry, f, head, sleeps)
      modifies this, retry
      ensures !done ==> OnCourse(retry, f, head, sleeps')
      ensures !done ==> |sleeps| < |sleeps'| <= Max(setup.maxRetries, 0) + 1
      ensures done ==> Ended(f, head, sleeps', finished, false)
      ensures done && !finished ==> result.WatchFailed? && Some(result.err) == GivenUp(setup, world, |sleeps'|)
      ensures done && finished ==> result == WatchAnswer(world.reply(|sleeps'| - 1), f, responseErr, streamErr,
                                                         LatestError(Outcomes(world, |sleeps'| - 1)))
    {
      finished := false;
      result := EmptyWatch;
      var r, early;
      r, early, sleeps' := TryOnce(retry, f, head, sleeps);
      if r.Err? {
        var final := Some(r.error);
        if early { final := WrapPreviousError(retry, final); }
        return true, WatchFailed(final.value), sleeps', false;
      }
      CourseBound(setup, world, f, sleeps');
      var reply := r.value;
      if reply.Got? && reply.response.status == 200 {
        result := NewStreamWatcher(reply.response);
        return true, result, sleeps', true;
      }
      var again := GoOn(retry, reply, f, head, sleeps');
      done := !again;
      if done {
        finished := true;
        result := EndWatch(retry, reply, f);
      }
    }

    method NewStreamWatcher(resp: Response) returns (result: WatchResult)
      ensures result == if streamErr(resp).Some? then WatchFailed(streamErr(resp).value) else Streaming(resp)
    {
      if streamErr(resp).Some? { return WatchFailed(streamErr(resp).value); }
      result := Streaming(resp);
    }

    // A Watch waits for the limiter, although it is documented not to, exactly if there is one, the
    // first attempt is sent, its reply calls for another and the context is not done by then.
    lemma WatchWaits(head: seq<Event>, sleeps: seq<int>, finished: bool)
      requires Ended(RetryableWatch(), head, sleeps, finished, false)
      ensures Since(head, log, Waits) > 0 <==> FirstRetryWaits(setup, world, RetryableWatch())
      ensures Since(head, log, Waits) == WaitsOf(setup, world, |sleeps|, finished)
    {
      WaitsAtAll(setup, world, RetryableWatch(), head, sleeps, finished, false);
      ExactWaits(setup, world, RetryableWatch(), head, sleeps, finished, false);
    }

    // What Watch answers to a reply that is neither a stream nor a reason to try again.
    method EndWatch(retry: WithRetry, reply: Reply, retryable: Error -> bool) returns (result: WatchResult)
      requires !(reply.Got? && reply.response.status == 200)
      ensures result == WatchAnswer(reply, retryable, responseErr, streamErr, retry.previousErr)
    {
      if reply.Failed? && retryable(reply.err) { return EmptyWatch; }
      var final := if reply.Failed? then reply.err else responseErr(reply.response);
      var wrapped := WrapPreviousError(retry, Some(final));
      result := WatchFailed(wrapped.value);
    }

    // Stream. An error from the transport ends it at once and errors are not wrapped.
    method Stream() returns (result: Result<Response, Error>, ghost sleeps: seq<int>, ghost finished: bool)
      requires setup.body.Some? ==> unread == setup.body.value
      modifies this
      ensures err.Some? ==> !finished && result == Result.Err(err.value) && log == old(log)
      ensures err.None? ==>
        var head := Emit(old(log), Throttled, setup.limited);
        if FirstWaitRefused() then !finished && log == head && result == Result.Err(world.throttleErr(0).value)
        else Ended(NeverRetry(), head, sleeps, finished, false)
      ensures finished ==> result == StreamAnswer(world.reply(|sleeps| - 1), responseErr)
      ensures err.None? && !finished && !FirstWaitRefused() ==>
        result.Err? && Some(result.error) == Refusal(setup, world, |sleeps|)
    {
      sleeps, finished := [], false;
      if err.Some? { return Err(err.value), sleeps, finished; }
      var refused := TryThrottle(0);
      if refused.Some? { return Err(refused.value), sleeps, finished; }

      ghost var head := log;
      var retry := new WithRetry(setup.maxRetries);
      while true
        invariant fresh(retry) && OnCourse(retry, NeverRetry(), head, sleeps)
        decreases Max(setup.maxRetries, 0) + 1 - |sleeps|
      {
        var done;
        done, result, sleeps, finished := StreamOnce(retry, head, sleeps);
        if done { return; }
      }
    }

    // The body of the loop.
    method StreamOnce(retry: WithRetry, ghost head: seq<Event>, ghost sleeps: seq<int>)
      returns (done: bool, result: Result<Response, Error>, ghost sleeps': seq<int>, ghost finished: bool)
      requires OnCourse(retry, NeverRetry(), head, sleeps)
      modifies this, retry
      ensures !done ==> OnCourse(retry, NeverRetry(), head, sleeps')
      ensures !done ==> |sleeps| < |sleeps'| <= Max(setup.maxRetries, 0) + 1
      ensures done ==> Ended(NeverRetry(), head, sleeps', finished, false)
      ensures done && !finished ==> result.Err? && Some(result.error) == Refusal(setup, world, |sleeps'|)
      ensures done && finished ==> result == StreamAnswer(world.reply(|sleeps'| - 1), responseErr)
    {
      var f := NeverRetry();
      var r, early;
      r, early, sleeps' := TryOnce(retry, f, head, sleeps);
      if r.Err? { return true, Err(r.error), sleeps', false; }
      CourseBound(setup, world, f, sleeps');
      var reply := r.value;
      if reply.Failed? { return true, Err(reply.err), sleeps', true; }
      if 200 <= reply.response.status < 300 { return true, Ok(reply.response), sleeps', true; }
      var again := GoOn(retry, reply, f, head, sleeps');
      done, finished := !again, !again;
      result := Err(responseErr(reply.response));
    }
  }

  lemma CourseGrows(u: Setup, w: World, retryable: Error -> bool, sleeps: seq<int>)
    requires Course(u, w, retryable, sleeps) && !Refused(u, w, |sleeps|)
    requires |sleeps| > 0 ==> Again(u, w, retryable, |sleeps| - 1)
    ensures Course(u, w, retryable, sleeps + [NextSleep(w, retryable, |sleeps|)])
  {
  }
}
