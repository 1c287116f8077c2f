// What the retry machinery of rest/with_retry.go decides and what an exchange with a server looks
// like, attempt by attempt.
module RetrySpec {
  import opened Wrappers

  // text is what Error() prints. A UrlError is the net/http wrapper around another error.
  datatype Error =
    | NetError(text: string, connectionReset: bool, probableEOF: bool, timeout: bool)
    | ContextError(text: string)
    | ThrottleError(text: string)
    | BuildError(text: string)
    | StatusError(text: string)
    | UrlError(text: string, inner: Option<Error>)
    | WithPrevious(text: string, current: Error, previous: Error)

  // retryAfter is the Retry-After header as strconv.Atoi reads it, None if it does not.
  datatype Response = Response(status: int, retryAfter: Option<int>)

  // What http.Client.Do answers: here a response or an error, not both.
  datatype Reply = Got(response: Response) | Failed(err: Error)
  {
    function Err(): Option<Error> {
      if Failed? then Some(err) else None
    }

    function Resp(): Option<Response> {
      if Got? then Some(response) else None
    }
  }

  // checkWait
  function CheckWait(resp: Response): Option<int> {
    if resp.status == 429 || resp.status >= 500 then resp.retryAfter else None
  }

  // The artificial response that stands for a retryable error.
  const RetryAfterResponse := Response(500, Some(1))

  // The seconds to wait before another attempt is worth making; None if none is.
  function RetryDelay(reply: Reply, retryable: Error -> bool): Option<int> {
    match reply
    case Got(resp) => CheckWait(resp)
    case Failed(err) => if retryable(err) then CheckWait(RetryAfterResponse) else None
  }

  // A response asks for another attempt exactly if it says that the server is busy or has failed and
  // how many seconds to wait; an error if it is retryable, after one second.
  lemma RetryDelayMeaning(reply: Reply, retryable: Error -> bool)
    ensures reply.Got? ==>
      (RetryDelay(reply, retryable).Some? <==>
        reply.response.retryAfter.Some? && (reply.response.status == 429 || 500 <= reply.response.status))
    ensures reply.Got? && RetryDelay(reply, retryable).Some? ==>
      RetryDelay(reply, retryable) == reply.response.retryAfter
    ensures reply.Failed? ==> RetryDelay(reply, retryable) == if retryable(reply.err) then Some(1) else None
  {
  }

  // ---- Durations: 64-bit nanoseconds ----

  const MAX_INT64 := 0x7fff_ffff_ffff_ffff
  const TWO_64 := 0x1_0000_0000_0000_0000
  const SECOND := 1_000_000_000

  function Wrap64(x: int): (y: int)
    ensures -MAX_INT64 - 1 <= y <= MAX_INT64
  {
    (x + MAX_INT64 + 1) % TWO_64 - MAX_INT64 - 1
  }

  // time.Duration(seconds) * time.Second
  function Duration(seconds: int): int {
    Wrap64(seconds * SECOND)
  }

  function Max(a: int, b: int): int {
    if a < b then b else a
  }

  // What Before sleeps ahead of a retry.
  function RetrySleep(backoff: int, seconds: int): int {
    Max(backoff, Duration(seconds))
  }

  // A retry sleeps at least as long as the backoff asks. It also sleeps at least as long as the
  // server asks if and only if that is no more than 9223372036 seconds, the most that fits a
  // Duration: a longer request overflows, and no backoff makes up for it.
  lemma SleepsLongEnough(backoff: int, seconds: int)
    requires -MAX_INT64 - 1 <= backoff <= MAX_INT64
    requires -MAX_INT64 - 1 <= seconds <= MAX_INT64
    ensures RetrySleep(backoff, seconds) >= backoff
    ensures 0 <= seconds <= 9223372036 ==> RetrySleep(backoff, seconds) in {backoff, seconds * SECOND}
    ensures RetrySleep(backoff, seconds) >= seconds * SECOND <==> seconds <= 9223372036
  {
  }

  // ---- Errors of earlier attempts ----

  // The last error in a history of outcomes.
  function LatestError(history: seq<Option<Error>>): Option<Error> {
    if history == [] then None
    else if history[|history| - 1].Some? then history[|history| - 1]
    else LatestError(history[..|history| - 1])
  }

  // It is nil exactly if no attempt failed, and otherwise it is the error of the last one that did.
  lemma {:induction false} LatestErrorMeaning(history: seq<Option<Error>>)
    ensures LatestError(history).None? <==> forall i :: 0 <= i < |history| ==> history[i].None?
    ensures LatestError(history).Some? ==>
              exists i :: IsLatest(history, i) && history[i] == LatestError(history)
  {
    if history != [] {
      var n := |history| - 1;
      LatestErrorMeaning(history[..n]);
      if history[n].Some? {
        assert IsLatest(history, n);
      } else if LatestError(history).Some? {
        var i :| IsLatest(history[..n], i) && history[..n][i] == LatestError(history[..n]);
        assert IsLatest(history, i);
      } else {
        forall i | 0 <= i < |history| ensures history[i].None? {
          if i < n { assert history[..n][i].None?; }
        }
      }
    }
  }

  ghost predicate IsLatest(history: seq<Option<Error>>, i: int) {
    0 <= i < |history| && history[i].Some? && forall j :: i < j < |history| ==> history[j].None?
  }

  // The error inside a url.Error, any other error itself.
  function Inner(err: Error): Error {
    if err.UrlError? && err.inner.Some? then err.inner.value else err
  }

  // WrapPreviousError
  function WrapPrevious(final: Option<Error>, previous: Option<Error>): (wrapped: Option<Error>)
    ensures wrapped.Some? <==> final.Some?
  {
    if final.None? || previous.None? || final.value.text == previous.value.text then final
    else
      var prev := Inner(previous.value);
      Some(WithPrevious(final.value.text + " - error from a previous attempt: " + prev.text, final.value, prev))
  }

  // The error inside a wrapper, as errors.Unwrap finds it.
  function Unwrapped(err: Error): Option<Error> {
    match err
    case WithPrevious(_, current, _) => Some(current)
    case UrlError(_, inner) => inner
    case _ => None
  }

  // Wrapping loses nothing: the answer is the final error or unwraps to it, its text begins with the
  // final error's, and in the second case it ends with that of the previous error. A second error
  // is mentioned exactly if there is one that reads differently.
  lemma WrapPreviousMeaning(final: Option<Error>, previous: Option<Error>)
    ensures var w := WrapPrevious(final, previous);
            && (w == final || (w.Some? && Unwrapped(w.value) == final))
            && (w != final <==> final.Some? && previous.Some? && final.value.text != previous.value.text)
            && (w.Some? ==> final.value.text <= w.value.text)
            && (w != final ==> EndsWith(w.value.text, Inner(previous.value).text))
            && (w != final ==> w.value.previous == Inner(previous.value))
  {
    var w := WrapPrevious(final, previous);
    if w.Some? && final.Some? && previous.Some? && final.value.text != previous.value.text {
      var head := final.value.text + " - error from a previous attempt: ";
      assert w.value.text == head + Inner(previous.value).text;
      assert w.value.text[|head|..] == Inner(previous.value).text;
      assert |w.value.text| > |final.value.text|;
    }
  }

  ghost predicate EndsWith(s: string, tail: string) {
    |tail| <= |s| && s[|s| - |tail|..] == tail
  }

  predicate Wraps(final: Error, previous: Option<Error>) {
    previous.Some? && final.text != previous.value.text
  }

  predicate ImplementsUnwrap(err: Error) {
    err.WithPrevious? || err.UrlError?
  }

  // errors.Is
  predicate Is(err: Error, target: Error) {
    err == target ||
    match err
    case WithPrevious(_, current, _) => Is(current, target)
    case UrlError(_, Some(inner)) => Is(inner, target)
    case _ => false
  }

  // The three conditions that WrapPreviousError is documented to satisfy. The first, for a final error
  // with an Unwrap, holds exactly if nothing is wrapped; the second, for one without, exactly if
  // something is; the third holds for every target but the wrapper itself.
  lemma WrapPromises(final: Error, previous: Option<Error>)
    ensures var w := WrapPrevious(Some(final), previous).value;
            && (ImplementsUnwrap(final) ==> (Unwrapped(w) == Unwrapped(final) <==> !Wraps(final, previous)))
            && (!ImplementsUnwrap(final) ==> (Unwrapped(w) == Some(final) <==> Wraps(final, previous)))
            && (forall target :: target != w ==> (Is(w, target) <==> Is(final, target)))
            && (Is(w, w) && (Wraps(final, previous) ==> !Is(final, w)))
  {
    NotInside(final, WrapPrevious(Some(final), previous).value);
  }

  function Depth(err: Error): nat {
    match err
    case WithPrevious(_, current, _) => 1 + Depth(current)
    case UrlError(_, Some(inner)) => 1 + Depth(inner)
    case _ => 0
  }

  // Nothing is found inside an error that goes deeper than it does.
  lemma {:induction false} NotInside(err: Error, target: Error)
    ensures Depth(err) < Depth(target) ==> !Is(err, target)
    ensures Depth(err) == Depth(target) ==> (Is(err, target) <==> err == target)
    decreases err
  {
    match err
    case WithPrevious(_, current, _) => NotInside(current, target);
    case UrlError(_, Some(inner)) => NotInside(inner, target);
    case _ =>
  }

  // ---- The course of an exchange ----

  // What happens to the outside, in order.
  datatype Event =
    | Throttled                  // the rate limiter was waited for
    | Slept(duration: int)
    | Sent(payload: seq<Byte>)
    | ResultMetric
    | RetryMetric
    | BackoffUpdated
    | Consumed                   // the caller's function got the response

  // The world as the loop meets it: before attempt i (from 0) the context may be done, the backoff
  // asks for a sleep, the limiter may refuse, the request may fail to build; after it is sent
  // there is a reply.
  datatype World = World(
    reply: nat -> Reply,
    contextErr: nat -> Option<Error>,
    backoff: nat -> int,
    throttleErr: nat -> Option<Error>,
    contextErrAfterThrottle: nat -> Option<Error>,
    buildErr: nat -> Option<Error>)

  // The parts of a rest.Request that matter here. A reader is used up by the first send.
  datatype Setup = Setup(
    maxRetries: int,
    body: Option<seq<Byte>>,
    bodyBytes: Option<seq<Byte>>,
    limited: bool,
    hasBase: bool)

  function Payload(u: Setup): seq<Byte> {
    if u.body.Some? then u.body.value else if u.bodyBytes.Some? then u.bodyBytes.value else []
  }

  // In terms of the setup alone: a reader's content, or the bytes, or nothing.
  ghost predicate IsWholeBody(u: Setup, payload: seq<Byte>) {
    && (forall b: seq<Byte> :: u.body == Some(b) ==> payload == b)
    && (forall b: seq<Byte> :: u.body.None? && u.bodyBytes == Some(b) ==> payload == b)
    && (u.body.None? && u.bodyBytes.None? ==> payload == [])
  }

  lemma PayloadIsWhole(u: Setup)
    ensures IsWholeBody(u, Payload(u))
  {
  }

  // Attempt i is made again after its reply.
  predicate Again(u: Setup, w: World, retryable: Error -> bool, i: nat) {
    u.body.None? && i + 1 <= u.maxRetries && RetryDelay(w.reply(i), retryable).Some?
  }

  function Emit(log: seq<Event>, e: Event, happens: bool): seq<Event> {
    if happens then log + [e] else log
  }

  // One attempt: the sleep, for a retry the wait for the rate limiter, the send, the accounting.
  function AfterPrelude(u: Setup, log: seq<Event>, retry: bool, sleep: int): seq<Event> {
    Emit(Emit(log, Slept(sleep), true), Throttled, retry && u.limited)
  }

  function AfterSend(u: Setup, log: seq<Event>, retry: bool): seq<Event> {
    Emit(Emit(Emit(Emit(log, Sent(Payload(u)), true), ResultMetric, true), RetryMetric, retry),
         BackoffUpdated, u.hasBase)
  }

  // Attempts in a row, each after its sleep.
  function Attempts(u: Setup, before: seq<Event>, sleeps: seq<int>): seq<Event>
    decreases |sleeps|
  {
    if sleeps == [] then before
    else
      var n := |sleeps| - 1;
      AfterSend(u, AfterPrelude(u, Attempts(u, before, sleeps[..n]), n > 0, sleeps[n]), n > 0)
  }

  const BothBodies := BuildError("cannot set both body and bodyBytes")

  // Before ends the exchange ahead of attempt i: the context is done or the limiter refuses. The wait
  // for attempt 0 is not part of a loop.
  predicate RefusedEarly(u: Setup, w: World, i: nat) {
    w.contextErr(i).Some? || (i > 0 && u.limited && w.throttleErr(i).Some?)
  }

  // What keeps attempt i from being sent, if anything does; the request may also fail to build.
  function Refusal(u: Setup, w: World, i: nat): Option<Error> {
    if w.contextErr(i).Some? then w.contextErr(i)
    else if i > 0 && u.limited && w.throttleErr(i).Some? then w.throttleErr(i)
    else if u.body.Some? && u.bodyBytes.Some? then Some(BothBodies)
    else w.buildErr(i)
  }

  predicate Refused(u: Setup, w: World, i: nat) {
    Refusal(u, w, i).Some?
  }

  // The sleep ahead of attempt i: that of the backoff, for a retry the longer of it and what the
  // reply before asked for.
  function NextSleep(w: World, retryable: Error -> bool, i: nat): int {
    if i == 0 then w.backoff(0)
    else match RetryDelay(w.reply(i - 1), retryable)
      case None => w.backoff(i)
      case Some(seconds) => RetrySleep(w.backoff(i), seconds)
  }

  // The attempts and their sleeps are the ones that the world calls for: none is refused and a retry
  // follows only on a reply that asks for one.
  ghost predicate Course(u: Setup, w: World, retryable: Error -> bool, sleeps: seq<int>) {
    forall i: nat :: i < |sleeps| ==>
      && !Refused(u, w, i)
      && (i > 0 ==> Again(u, w, retryable, i - 1))
      && sleeps[i] == NextSleep(w, retryable, i)
  }

  // A course is over after a reply that calls for no other attempt (finished), or before an attempt
  // that was called for and refused.
  ghost predicate Over(u: Setup, w: World, retryable: Error -> bool, sleeps: seq<int>, finished: bool) {
    && Course(u, w, retryable, sleeps)
    && (finished ==> sleeps != [] && !Again(u, w, retryable, |sleeps| - 1))
    && (!finished ==> Refused(u, w, |sleeps|) && (sleeps != [] ==> Again(u, w, retryable, |sleeps| - 1)))
  }

  // What has happened by the time a loop is over. A consumer gets the last response, if there is
  // one. A refused attempt has slept and waited for the limiter, unless the context was done.
  function FinalLog(u: Setup, w: World, retryable: Error -> bool, head: seq<Event>, sleeps: seq<int>,
                    finished: bool, consumer: bool): seq<Event> {
    var log, n := Attempts(u, head, sleeps), |sleeps|;
    if finished then Emit(log, Consumed, consumer && n > 0 && w.reply(n - 1).Got?)
    else GivenUpLog(u, w, retryable, log, n)
  }

  function GivenUpLog(u: Setup, w: World, retryable: Error -> bool, log: seq<Event>, n: nat): seq<Event> {
    if w.contextErr(n).Some? then log else AfterPrelude(u, log, n > 0, NextSleep(w, retryable, n))
  }

  // The errors of the first n replies.
  ghost function Outcomes(w: World, n: nat): seq<Option<Error>> {
    if n == 0 then [] else Outcomes(w, n - 1) + [w.reply(n - 1).Err()]
  }

  // The error for an exchange given up before attempt i. One that Before gives comes together with
  // the most recent error before it; one from building the request is returned as it is.
  ghost function GivenUp(u: Setup, w: World, i: nat): Option<Error> {
    if RefusedEarly(u, w, i) then WrapPrevious(Refusal(u, w, i), LatestError(Outcomes(w, i))) else Refusal(u, w, i)
  }

  // ---- Accounts ----

  datatype Kind = Waits | Sleeps | Sends | Results | Retries | Backoffs | Consumptions

  function KindOf(e: Event): Kind {
    match e
    case Throttled => Waits
    case Slept(_) => Sleeps
    case Sent(_) => Sends
    case ResultMetric => Results
    case RetryMetric => Retries
    case BackoffUpdated => Backoffs
    case Consumed => Consumptions
  }

  function Count(log: seq<Event>, kind: Kind): nat {
    if log == [] then 0
    else Count(log[..|log| - 1], kind) + if KindOf(log[|log| - 1]) == kind then 1 else 0
  }

  lemma CountEmit(log: seq<Event>, e: Event, happens: bool, kind: Kind)
    ensures Count(Emit(log, e, happens), kind) == Count(log, kind) + if happens && KindOf(e) == kind then 1 else 0
  {
    if happens { assert (log + [e])[..|log|] == log; }
  }

  // What one attempt adds to each account, and what n attempts add.
  function PerAttempt(u: Setup, retry: bool, kind: Kind): nat {
    match kind
    case Sleeps | Sends | Results => 1
    case Retries => if retry then 1 else 0
    case Waits => if retry && u.limited then 1 else 0
    case Backoffs => if u.hasBase then 1 else 0
    case Consumptions => 0
  }

  function PerExchange(u: Setup, n: nat, kind: Kind): int {
    match kind
    case Sleeps | Sends | Results => n
    case Retries => Max(n - 1, 0)
    case Waits => if u.limited then Max(n - 1, 0) else 0
    case Backoffs => if u.hasBase then n else 0
    case Consumptions => 0
  }

  lemma AttemptAccounts(u: Setup, log: seq<Event>, retry: bool, sleep: int, kind: Kind)
    ensures Count(AfterSend(u, AfterPrelude(u, log, retry, sleep), retry), kind)
            == Count(log, kind) + PerAttempt(u, retry, kind)
  {
    PreludeAccounts(u, log, retry, sleep, kind);
    SendAccounts(u, AfterPrelude(u, log, retry, sleep), retry, kind);
  }

  lemma PreludeAccounts(u: Setup, log: seq<Event>, retry: bool, sleep: int, kind: Kind)
    ensures Count(AfterPrelude(u, log, retry, sleep), kind)
            == Count(log, kind) + if kind.Sleeps? || (kind.Waits? && retry && u.limited) then 1 else 0
  {
    CountEmit(log, Slept(sleep), true, kind);
    CountEmit(Emit(log, Slept(sleep), true), Throttled, retry && u.limited, kind);
  }

  lemma SendAccounts(u: Setup, log: seq<Event>, retry: bool, kind: Kind)
    ensures Count(AfterSend(u, log, retry), kind) == Count(log, kind)
            + if kind.Sends? || kind.Results? || (kind.Retries? && retry) || (kind.Backoffs? && u.hasBase) then 1 else 0
  {
    var l1 := Emit(log, Sent(Payload(u)), true);
    var l2 := Emit(l1, ResultMetric, true);
    CountEmit(log, Sent(Payload(u)), true, kind);
    CountEmit(l1, ResultMetric, true, kind);
    CountEmit(l2, RetryMetric, retry, kind);
    CountEmit(Emit(l2, RetryMetric, retry), BackoffUpdated, u.hasBase, kind);
  }

  // The accounts of n attempts: n sends, n sleeps, n result and n - 1 retry metrics, and n - 1
  // waits for the rate limiter, on top of whatever came before.
  lemma {:induction false} Accounts(u: Setup, before: seq<Event>, sleeps: seq<int>, kind: Kind)
    ensures Count(Attempts(u, before, sleeps), kind) == Count(before, kind) + PerExchange(u, |sleeps|, kind)
    decreases |sleeps|
  {
    if sleeps != [] {
      var n := |sleeps| - 1;
      Accounts(u, before, sleeps[..n], kind);
      AttemptAccounts(u, Attempts(u, before, sleeps[..n]), n > 0, sleeps[n], kind);
    }
  }

  // What happened between two logs.
  function Since(before: seq<Event>, log: seq<Event>, kind: Kind): int {
    Count(log, kind) - Count(before, kind)
  }

  lemma Called(u: Setup, w: World, retryable: Error -> bool, sleeps: seq<int>, i: nat)
    requires Course(u, w, retryable, sleeps) && i < |sleeps|
    ensures !Refused(u, w, i) && (i > 0 ==> Again(u, w, retryable, i - 1)) && sleeps[i] == NextSleep(w, retryable, i)
  {
  }

  // No course has more than maxRetries + 1 attempts, nor more than one with a reader as its body.
  lemma CourseBound(u: Setup, w: World, retryable: Error -> bool, sleeps: seq<int>)
    requires Course(u, w, retryable, sleeps)
    ensures |sleeps| <= Max(u.maxRetries, 0) + 1
    ensures u.body.Some? ==> |sleeps| <= 1
  {
    if |sleeps| > 1 { Called(u, w, retryable, sleeps, |sleeps| - 1); }
  }

  // The world determines how an exchange goes and how it ends.
  lemma CourseUnique(u: Setup, w: World, retryable: Error -> bool, a: seq<int>, aEnd: bool, b: seq<int>, bEnd: bool)
    requires Over(u, w, retryable, a, aEnd) && Over(u, w, retryable, b, bEnd)
    ensures a == b && aEnd == bEnd
  {
    NotShorter(u, w, retryable, a, aEnd, b);
    NotShorter(u, w, retryable, b, bEnd, a);
    forall i | 0 <= i < |a| ensures a[i] == b[i] {
      Called(u, w, retryable, a, i);
      Called(u, w, retryable, b, i);
    }
  }

  lemma NotShorter(u: Setup, w: World, retryable: Error -> bool, a: seq<int>, aEnd: bool, b: seq<int>)
    requires Over(u, w, retryable, a, aEnd) && Course(u, w, retryable, b)
    ensures |b| <= |a|
  {
    forall i: nat | i < |b| ensures !Refused(u, w, i) && (i > 0 ==> Again(u, w, retryable, i - 1)) {
      Called(u, w, retryable, b, i);
    }
  }

  // Bounds and accounts of a whole exchange, however it ends: at most maxRetries + 1 sends, a reader
  // sent at most once, a result metric for every send, a retry metric for every send but the first,
  // and the response handed over once if the exchange finished with one, and else not at all.
  lemma ExchangeTotals(u: Setup, w: World, retryable: Error -> bool, head: seq<Event>, sleeps: seq<int>,
                       finished: bool, consumer: bool)
    requires Over(u, w, retryable, sleeps, finished)
    ensures var log := FinalLog(u, w, retryable, head, sleeps, finished, consumer);
            && Since(head, log, Sends) == |sleeps| <= Max(u.maxRetries, 0) + 1
            && (u.body.Some? ==> |sleeps| <= 1)
            && Since(head, log, Results) == |sleeps|
            && Since(head, log, Retries) == Max(|sleeps| - 1, 0)
            && Since(head, log, Consumptions) == if finished && consumer && w.reply(|sleeps| - 1).Got? then 1 else 0
  {
    CourseBound(u, w, retryable, sleeps);
    forall kind: Kind | kind.Sends? || kind.Results? || kind.Retries? || kind.Consumptions?
      ensures Since(head, FinalLog(u, w, retryable, head, sleeps, finished, consumer), kind)
              == PerExchange(u, |sleeps|, kind)
                 + if kind.Consumptions? && finished && consumer && w.reply(|sleeps| - 1).Got? then 1 else 0
    {
      Accounts(u, head, sleeps, kind);
      EndAccounts(u, w, retryable, head, sleeps, finished, consumer, kind);
    }
  }

  // The end of an exchange sends nothing and counts nothing.
  lemma EndAccounts(u: Setup, w: World, retryable: Error -> bool, head: seq<Event>, sleeps: seq<int>,
                    finished: bool, consumer: bool, kind: Kind)
    requires Over(u, w, retryable, sleeps, finished) && !kind.Sleeps? && !kind.Waits?
    ensures Count(FinalLog(u, w, retryable, head, sleeps, finished, consumer), kind)
            == Count(Attempts(u, head, sleeps), kind)
               + if kind.Consumptions? && finished && consumer && w.reply(|sleeps| - 1).Got? then 1 else 0
  {
    var log, n := Attempts(u, head, sleeps), |sleeps|;
    if finished {
      CountEmit(log, Consumed, consumer && w.reply(n - 1).Got?, kind);
    } else if w.contextErr(n).None? {
      PreludeAccounts(u, log, n > 0, NextSleep(w, retryable, n), kind);
    }
  }

  // ---- Order ----

  // Waits for the limiter and sends alternate, beginning with a send.
  ghost predicate Alternate(head: seq<Event>, p: seq<Event>) {
    Since(head, p, Waits) <= Since(head, p, Sends) <= Since(head, p, Waits) + 1
  }

  lemma OneMore(head: seq<Event>, log: seq<Event>, e: Event, happens: bool, p: seq<Event>)
    requires p <= Emit(log, e, happens) && Alternate(head, Emit(log, e, happens))
    ensures p <= log || Alternate(head, p)
  {
    if happens {
      if |p| <= |log| { assert p == log[..|p|]; } else { assert p == log + [e]; }
    }
  }

  lemma {:induction false} AttemptsAlternate(u: Setup, head: seq<Event>, sleeps: seq<int>, p: seq<Event>)
    requires u.limited && head <= p <= Attempts(u, head, sleeps)
    ensures Alternate(head, p)
    decreases |sleeps|
  {
    if sleeps == [] {
      assert p == head;
    } else {
      var n := |sleeps| - 1;
      var log := Attempts(u, head, sleeps[..n]);
      if p <= log {
        AttemptsAlternate(u, head, sleeps[..n], p);
      } else {
        Accounts(u, head, sleeps[..n], Waits);
        Accounts(u, head, sleeps[..n], Sends);
        AttemptAlternates(u, head, log, n > 0, sleeps[n], p);
      }
    }
  }

  // At every moment of an exchange, however it ends: each send after the first has had a wait of its
  // own since the send before it. As request and Stream wait once ahead of their loops, there every
  // send has one; in Watch the first has none.
  lemma WaitBeforeSend(u: Setup, w: World, retryable: Error -> bool, head: seq<Event>, sleeps: seq<int>,
                       finished: bool, consumer: bool, p: seq<Event>)
    requires u.limited && head <= p <= FinalLog(u, w, retryable, head, sleeps, finished, consumer)
    ensures Alternate(head, p)
  {
    var log, n := Attempts(u, head, sleeps), |sleeps|;
    if p <= log {
      AttemptsAlternate(u, head, sleeps, p);
    } else {
      Accounts(u, head, sleeps, Waits);
      Accounts(u, head, sleeps, Sends);
      if finished {
        CountBoth(log, Consumed, consumer && n > 0 && w.reply(n - 1).Got?);
        OneMore(head, log, Consumed, consumer && n > 0 && w.reply(n - 1).Got?, p);
      } else {
        PreludeAlternates(u, head, log, n > 0, NextSleep(w, retryable, n), p);
      }
    }
  }

  lemma PreludeAlternates(u: Setup, head: seq<Event>, log: seq<Event>, retry: bool, sleep: int, p: seq<Event>)
    requires u.limited && p <= AfterPrelude(u, log, retry, sleep) && !(p <= log)
    requires Since(head, log, Sends) == Since(head, log, Waits) + if retry then 1 else 0
    ensures Alternate(head, p)
  {
    var l1 := Emit(log, Slept(sleep), true);
    CountBoth(log, Slept(sleep), true);
    CountBoth(l1, Throttled, retry);
    OneMore(head, l1, Throttled, retry, p);
    if p <= l1 { OneMore(head, log, Slept(sleep), true, p); }
  }

  // Within one attempt.
  lemma AttemptAlternates(u: Setup, head: seq<Event>, log: seq<Event>, retry: bool, sleep: int, p: seq<Event>)
    requires u.limited && p <= AfterSend(u, AfterPrelude(u, log, retry, sleep), retry) && !(p <= log)
    requires Since(head, log, Sends) == Since(head, log, Waits) + if retry then 1 else 0
    ensures Alternate(head, p)
  {
    var l1 := Emit(log, Slept(sleep), true);
    var l2 := Emit(l1, Throttled, retry);
    var l3 := Emit(l2, Sent(Payload(u)), true);
    var l4 := Emit(l3, ResultMetric, true);
    var l5 := Emit(l4, RetryMetric, retry);
    CountBoth(log, Slept(sleep), true);
    CountBoth(l1, Throttled, retry);
    CountBoth(l2, Sent(Payload(u)), true);
    CountBoth(l3, ResultMetric, true);
    CountBoth(l4, RetryMetric, retry);
    CountBoth(l5, BackoffUpdated, u.hasBase);
    OneMore(head, l5, BackoffUpdated, u.hasBase, p);
    if p <= l5 { OneMore(head, l4, RetryMetric, retry, p); }
    if p <= l4 { OneMore(head, l3, ResultMetric, true, p); }
    if p <= l3 { OneMore(head, l2, Sent(Payload(u)), true, p); }
    if p <= l2 { OneMore(head, l1, Throttled, retry, p); }
    if p <= l1 { OneMore(head, log, Slept(sleep), true, p); }
  }

  lemma CountBoth(log: seq<Event>, e: Event, happens: bool)
    ensures Count(Emit(log, e, happens), Waits) == Count(log, Waits) + if happens && e.Throttled? then 1 else 0
    ensures Count(Emit(log, e, happens), Sends) == Count(log, Sends) + if happens && e.Sent? then 1 else 0
  {
    CountEmit(log, e, happens, Waits);
    CountEmit(log, e, happens, Sends);
  }

  // How often a loop waits for the limiter, however it ends: once per send but the first, and once
  // more if a retry is given up after its wait.
  function WaitsOf(u: Setup, w: World, n: nat, finished: bool): int {
    if !u.limited then 0
    else if finished || w.contextErr(n).Some? then Max(n - 1, 0)
    else n
  }

  lemma ExactWaits(u: Setup, w: World, retryable: Error -> bool, head: seq<Event>, sleeps: seq<int>,
                   finished: bool, consumer: bool)
    requires Over(u, w, retryable, sleeps, finished)
    ensures Since(head, FinalLog(u, w, retryable, head, sleeps, finished, consumer), Waits)
            == WaitsOf(u, w, |sleeps|, finished)
  {
    Accounts(u, head, sleeps, Waits);
    EndWaits(u, w, retryable, head, sleeps, finished, consumer);
  }

  lemma EndWaits(u: Setup, w: World, retryable: Error -> bool, head: seq<Event>, sleeps: seq<int>,
                 finished: bool, consumer: bool)
    requires finished ==> sleeps != []
    ensures Count(FinalLog(u, w, retryable, head, sleeps, finished, consumer), Waits)
            == Count(Attempts(u, head, sleeps), Waits)
               + if !finished && w.contextErr(|sleeps|).None? && sleeps != [] && u.limited then 1 else 0
  {
    var log, n := Attempts(u, head, sleeps), |sleeps|;
    if finished {
      CountEmit(log, Consumed, consumer && n > 0 && w.reply(n - 1).Got?, Waits);
    } else {
      GivenUpWaits(u, w, retryable, log, n);
    }
  }

  lemma GivenUpWaits(u: Setup, w: World, retryable: Error -> bool, log: seq<Event>, n: nat)
    ensures Count(GivenUpLog(u, w, retryable, log, n), Waits)
            == Count(log, Waits) + if w.contextErr(n).None? && n > 0 && u.limited then 1 else 0
  {
    if w.contextErr(n).None? { PreludeAccounts(u, log, n > 0, NextSleep(w, retryable, n), Waits); }
  }

  // So where the limiter is waited for ahead of the loop, a finished exchange has exactly one wait for
  // every send, and one given up has that or one more. In Watch there is one less.
  lemma OneWaitPerSend(u: Setup, w: World, retryable: Error -> bool, before: seq<Event>, sleeps: seq<int>,
                       finished: bool, consumer: bool)
    requires Over(u, w, retryable, sleeps, finished) && u.limited
    ensures var log := FinalLog(u, w, retryable, Emit(before, Throttled, true), sleeps, finished, consumer);
            var waits := Since(before, log, Waits);
            && waits == 1 + WaitsOf(u, w, |sleeps|, finished)
            && (finished ==> waits == |sleeps|)
            && (!finished ==> waits == |sleeps| || waits == |sleeps| + 1)
  {
    ExactWaits(u, w, retryable, Emit(before, Throttled, true), sleeps, finished, consumer);
    CountEmit(before, Throttled, true, Waits);
  }

  // A loop waits for the limiter at all if and only if there is one, the first attempt is sent, its
  // reply calls for another, and the context is not done by then.
  predicate FirstRetryWaits(u: Setup, w: World, retryable: Error -> bool) {
    u.limited && !Refused(u, w, 0) && Again(u, w, retryable, 0) && w.contextErr(1).None?
  }

  lemma WaitsAtAll(u: Setup, w: World, retryable: Error -> bool, head: seq<Event>, sleeps: seq<int>,
                   finished: bool, consumer: bool)
    requires Over(u, w, retryable, sleeps, finished)
    ensures Since(head, FinalLog(u, w, retryable, head, sleeps, finished, consumer), Waits) > 0
            <==> FirstRetryWaits(u, w, retryable)
  {
    ExactWaits(u, w, retryable, head, sleeps, finished, consumer);
    if |sleeps| > 0 { Called(u, w, retryable, sleeps, 0); }
    if |sleeps| > 1 { Called(u, w, retryable, sleeps, 1); }
  }

  // What a caller can see beforehand: without a limiter, without retries, or with a reader as its
  // body, a loop never waits.
  lemma NeverWaits(u: Setup, w: World, retryable: Error -> bool, head: seq<Event>, sleeps: seq<int>,
                   finished: bool, consumer: bool)
    requires Over(u, w, retryable, sleeps, finished)
    requires !u.limited || u.maxRetries <= 0 || u.body.Some?
    ensures Since(head, FinalLog(u, w, retryable, head, sleeps, finished, consumer), Waits) == 0
  {
    WaitsAtAll(u, w, retryable, head, sleeps, finished, consumer);
    ExactWaits(u, w, retryable, head, sleeps, finished, consumer);
  }

  // A request without a body, with a limiter and one retry, to a server that is always busy.
  const Patient := Setup(1, None, None, true, false)
  const Busy := World((i: nat) => Got(Response(429, Some(1))), (i: nat) => None, (i: nat) => 0, (i: nat) => None,
                      (i: nat) => None, (i: nat) => None)

  // It is sent twice, and the second attempt waits for the limiter, whatever errors are retryable.
  lemma BusyServer(retryable: Error -> bool)
    ensures Over(Patient, Busy, retryable, [0, SECOND], true)
    ensures Since([], FinalLog(Patient, Busy, retryable, [], [0, SECOND], true, false), Waits) == 1
  {
    assert Duration(1) == SECOND;
    assert NextSleep(Busy, retryable, 1) == RetrySleep(0, 1) == SECOND;
    forall i: nat | i < 2 ensures !Refused(Patient, Busy, i) && [0, SECOND][i] == NextSleep(Busy, retryable, i) {}
    assert Again(Patient, Busy, retryable, 0) && !Again(Patient, Busy, retryable, 1);
    ExactWaits(Patient, Busy, retryable, [], [0, SECOND], true, false);
  }

  // ---- Around a send ----

  // Every send since head comes straight after the sleep of its attempt, or, with a limiter, for every
  // attempt but the first, after the wait that follows the sleep; and its result is counted at once.
  ghost predicate InShape(u: Setup, head: seq<Event>, log: seq<Event>) {
    head <= log && forall j :: |head| <= j < |log| && log[j].Sent? ==> SendAt(u, head, log, j)
  }

  ghost predicate SendAt(u: Setup, head: seq<Event>, log: seq<Event>, j: int) {
    && |head| < j < |log| - 1 && log[j + 1].ResultMetric?
    && if u.limited && Count(log[..j], Sends) > Count(head, Sends)
       then j > |head| + 1 && log[j - 1].Throttled? && log[j - 2].Slept?
       else log[j - 1].Slept?
  }

  // What comes later does not change it.
  lemma SendStays(u: Setup, head: seq<Event>, log: seq<Event>, more: seq<Event>, j: int)
    requires SendAt(u, head, log, j)
    ensures SendAt(u, head, log + more, j)
  {
    assert (log + more)[..j] == log[..j];
  }

  lemma QuietEmit(u: Setup, head: seq<Event>, log: seq<Event>, e: Event, happens: bool)
    requires InShape(u, head, log) && !e.Sent?
    ensures InShape(u, head, Emit(log, e, happens))
  {
    if happens {
      forall j | |head| <= j < |log + [e]| && (log + [e])[j].Sent? ensures SendAt(u, head, log + [e], j) {
        assert (log + [e])[j] == log[j];
        SendStays(u, head, log, [e], j);
      }
    }
  }

  // The send of an attempt whose sleep, and wait, have just been.
  lemma SendInShape(u: Setup, head: seq<Event>, log: seq<Event>, retry: bool)
    requires InShape(u, head, log) && |log| > |head| + (if retry && u.limited then 1 else 0)
    requires retry <==> Count(log, Sends) > Count(head, Sends)
    requires if retry && u.limited then log[|log| - 1].Throttled? && log[|log| - 2].Slept? else log[|log| - 1].Slept?
    ensures InShape(u, head, log + [Sent(Payload(u)), ResultMetric])
  {
    var l := log + [Sent(Payload(u)), ResultMetric];
    assert l[..|log|] == log;
    assert SendAt(u, head, l, |log|);
    forall j | |head| <= j < |l| && l[j].Sent? ensures SendAt(u, head, l, j) {
      if j < |log| {
        assert l[j] == log[j];
        SendStays(u, head, log, [Sent(Payload(u)), ResultMetric], j);
      }
    }
  }

  lemma AttemptInShape(u: Setup, head: seq<Event>, log: seq<Event>, retry: bool, sleep: int)
    requires InShape(u, head, log) && (retry <==> Count(log, Sends) > Count(head, Sends))
    ensures InShape(u, head, AfterSend(u, AfterPrelude(u, log, retry, sleep), retry))
  {
    var l0 := AfterPrelude(u, log, retry, sleep);
    QuietEmit(u, head, log, Slept(sleep), true);
    QuietEmit(u, head, Emit(log, Slept(sleep), true), Throttled, retry && u.limited);
    PreludeAccounts(u, log, retry, sleep, Sends);
    SendInShape(u, head, l0, retry);
    var l2 := Emit(Emit(l0, Sent(Payload(u)), true), ResultMetric, true);
    assert l2 == l0 + [Sent(Payload(u)), ResultMetric];
    QuietEmit(u, head, l2, RetryMetric, retry);
    QuietEmit(u, head, Emit(l2, RetryMetric, retry), BackoffUpdated, u.hasBase);
  }

  lemma {:induction false} AttemptsInShape(u: Setup, head: seq<Event>, sleeps: seq<int>)
    ensures InShape(u, head, Attempts(u, head, sleeps))
    decreases |sleeps|
  {
    if sleeps != [] {
      var n := |sleeps| - 1;
      AttemptsInShape(u, head, sleeps[..n]);
      Accounts(u, head, sleeps[..n], Sends);
      AttemptInShape(u, head, Attempts(u, head, sleeps[..n]), n > 0, sleeps[n]);
    }
  }

  // So over every exchange.
  lemma ExchangeInShape(u: Setup, w: World, retryable: Error -> bool, head: seq<Event>, sleeps: seq<int>,
                        finished: bool, consumer: bool)
    ensures InShape(u, head, FinalLog(u, w, retryable, head, sleeps, finished, consumer))
  {
    var log, n := Attempts(u, head, sleeps), |sleeps|;
    var sleep := NextSleep(w, retryable, n);
    AttemptsInShape(u, head, sleeps);
    QuietEmit(u, head, log, Consumed, consumer && n > 0 && w.reply(n - 1).Got?);
    QuietEmit(u, head, log, Slept(sleep), true);
    QuietEmit(u, head, Emit(log, Slept(sleep), true), Throttled, n > 0 && u.limited);
  }

  // Everything sent since head carried the whole body.
  ghost predicate WholeSince(u: Setup, head: seq<Event>, log: seq<Event>) {
    head <= log && forall j :: |head| <= j < |log| && log[j].Sent? ==> IsWholeBody(u, log[j].payload)
  }

  lemma EmitWhole(u: Setup, head: seq<Event>, log: seq<Event>, e: Event, happens: bool)
    requires WholeSince(u, head, log) && (e.Sent? ==> IsWholeBody(u, e.payload))
    ensures WholeSince(u, head, Emit(log, e, happens))
  {
  }

  lemma AttemptWhole(u: Setup, head: seq<Event>, log: seq<Event>, retry: bool, sleep: int)
    requires WholeSince(u, head, log)
    ensures WholeSince(u, head, AfterSend(u, AfterPrelude(u, log, retry, sleep), retry))
  {
    PreludeWhole(u, head, log, retry, sleep);
    var l0 := AfterPrelude(u, log, retry, sleep);
    var l1 := Emit(l0, Sent(Payload(u)), true);
    var l2 := Emit(l1, ResultMetric, true);
    PayloadIsWhole(u);
    EmitWhole(u, head, l0, Sent(Payload(u)), true);
    EmitWhole(u, head, l1, ResultMetric, true);
    EmitWhole(u, head, l2, RetryMetric, retry);
    EmitWhole(u, head, Emit(l2, RetryMetric, retry), BackoffUpdated, u.hasBase);
  }

  lemma PreludeWhole(u: Setup, head: seq<Event>, log: seq<Event>, retry: bool, sleep: int)
    requires WholeSince(u, head, log)
    ensures WholeSince(u, head, AfterPrelude(u, log, retry, sleep))
  {
    EmitWhole(u, head, log, Slept(sleep), true);
    EmitWhole(u, head, Emit(log, Slept(sleep), true), Throttled, retry && u.limited);
  }

  // Every attempt sends the whole body.
  lemma {:induction false} WholeBody(u: Setup, head: seq<Event>, sleeps: seq<int>)
    ensures WholeSince(u, head, Attempts(u, head, sleeps))
    decreases |sleeps|
  {
    if sleeps != [] {
      var n := |sleeps| - 1;
      WholeBody(u, head, sleeps[..n]);
      AttemptWhole(u, head, Attempts(u, head, sleeps[..n]), n > 0, sleeps[n]);
    }
  }

  lemma WholeExchange(u: Setup, w: World, retryable: Error -> bool, head: seq<Event>, sleeps: seq<int>,
                      finished: bool, consumer: bool)
    ensures WholeSince(u, head, FinalLog(u, w, retryable, head, sleeps, finished, consumer))
  {
    var log, n := Attempts(u, head, sleeps), |sleeps|;
    WholeBody(u, head, sleeps);
    PreludeWhole(u, head, log, n > 0, NextSleep(w, retryable, n));
    EmitWhole(u, head, log, Consumed, consumer && n > 0 && w.reply(n - 1).Got?);
  }
}
