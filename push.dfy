/**
 * One tick of the push loop: whether a heartbeat request is made, and what
 * its outcome means. The request itself is an input; the error handed to
 * OnError is an output.
 */
module Push {
  import opened Wrappers
  import opened Clock
  import Http
  import Liveness

  /** The push service's acknowledgement body, {"ok": bool, "msg": string}. */
  datatype Ack = Ack(ok: bool, msg: string)

  /**
   * Reading the response body: either the read fails, or the body is read and
   * decoded; `ack` is None when the body does not decode into an Ack.
   */
  datatype BodyRead = ReadFailed | Read(ack: Option<Ack>)

  /** What the GET to the heartbeat URL returned. */
  datatype Attempt =
    | TransportFailed(detail: string)
    | Responded(statusCode: int, status: string, body: BodyRead)

  /** One ticker tick: the instant it fires and what a request made then would return. */
  datatype Tick = Tick(now: Time, attempt: Attempt)

  /** The error passed to OnError: "heartbeat to '<url>' failed: <detail>". */
  datatype PushError = PushError(url: string, detail: string)

  /** How one tick ends. */
  datatype TickResult =
    | Skipped             // not alive: no request
    | Succeeded           // 2xx and no negative acknowledgement
    | Dropped             // 2xx but the body could not be read: nothing reported
    | Failed(error: PushError)

  const MESSAGE_HEAD: string := "heartbeat to '"
  const MESSAGE_MIDDLE: string := "' failed: "

  /** The error's text, as the code formats it. */
  function Message(e: PushError): (s: string)
    ensures |s| == |MESSAGE_HEAD| + |e.url| + |MESSAGE_MIDDLE| + |e.detail|
    ensures s[..|MESSAGE_HEAD|] == MESSAGE_HEAD
    ensures s[|MESSAGE_HEAD|..|MESSAGE_HEAD| + |e.url|] == e.url
    ensures s[|MESSAGE_HEAD| + |e.url|..|MESSAGE_HEAD| + |e.url| + |MESSAGE_MIDDLE|] == MESSAGE_MIDDLE
    ensures s[|s| - |e.detail|..] == e.detail
  {
    MESSAGE_HEAD + e.url + MESSAGE_MIDDLE + e.detail
  }

  /** Given the URL, the detail can be read back off a message: no two details share one. */
  lemma MessageDetermined(url: string, d1: string, d2: string)
    requires Message(PushError(url, d1)) == Message(PushError(url, d2))
    ensures d1 == d2
  {
  }

  /**
   * The decision for one tick, by precedence: not alive, then transport
   * error, then a status outside 2xx, then a failed body read, then a
   * negative acknowledgement.
   */
  function Classify(url: string, alive: bool, attempt: Attempt): (r: TickResult)
    ensures r.Skipped? <==> !alive
    ensures r.Failed? ==> r.error.url == url
    ensures alive && attempt.TransportFailed? ==> r == Failed(PushError(url, attempt.detail))
    ensures alive && attempt.Responded? && !Http.IsSuccessful(attempt.statusCode) ==>
              r == Failed(PushError(url, attempt.status))
    ensures alive && attempt.Responded? && Http.IsSuccessful(attempt.statusCode) && attempt.body.Read?
              && attempt.body.ack.Some? && !attempt.body.ack.value.ok ==>
              r == Failed(PushError(url, attempt.body.ack.value.msg))
    ensures r.Dropped? <==>
              alive && attempt.Responded? && Http.IsSuccessful(attempt.statusCode) && attempt.body.ReadFailed?
    ensures r.Succeeded? <==>
              && alive && attempt.Responded? && Http.IsSuccessful(attempt.statusCode) && attempt.body.Read?
              && (attempt.body.ack.None? || attempt.body.ack.value.ok)
  {
    if !alive then Skipped
    else
      match attempt
      case TransportFailed(detail) => Failed(PushError(url, detail))
      case Responded(code, status, body) =>
        if !Http.IsSuccessful(code) then Failed(PushError(url, status))
        else
          match body
          case ReadFailed => Dropped
          case Read(ack) =>
            if ack.Some? && !ack.value.ok then Failed(PushError(url, ack.value.msg)) else Succeeded
  }

  /** The body is looked at only after a 2xx status: before that, any two bodies give the same result. */
  lemma BodyIrrelevantUnlessSuccessful(url: string, alive: bool, code: int, status: string, b1: BodyRead, b2: BodyRead)
    requires !Http.IsSuccessful(code)
    ensures Classify(url, alive, Responded(code, status, b1)) == Classify(url, alive, Responded(code, status, b2))
  {
  }

  /** The errors one tick hands to OnError: at most one, and none when OnError is nil. */
  function TickErrors(url: string, hasOnError: bool, alive: bool, attempt: Attempt): (errs: seq<PushError>)
    ensures |errs| <= 1
    ensures |errs| == 1 <==> hasOnError && Classify(url, alive, attempt).Failed?
    ensures |errs| == 1 ==> errs[0] == Classify(url, alive, attempt).error
  {
    match Classify(url, alive, attempt)
    case Failed(e) => if hasOnError then [e] else []
    case _ => []
  }

  /**
   * The errors a run of ticks reports, in tick order, when the record of the
   * last report stays `lastAlive` throughout.
   */
  function ErrorLog(url: string, hasOnError: bool, lastAlive: Time, threshold: Duration, ticks: seq<Tick>): seq<PushError>
    decreases |ticks|
  {
    if ticks == [] then []
    else
      var t := ticks[|ticks| - 1];
      ErrorLog(url, hasOnError, lastAlive, threshold, ticks[..|ticks| - 1])
        + TickErrors(url, hasOnError, Liveness.IsAlive(lastAlive, threshold, t.now), t.attempt)
  }

  /** Ticks are independent: the log of two runs back to back is the two logs concatenated. */
  lemma {:induction false} ErrorLogAppend(url: string, hasOnError: bool, lastAlive: Time, threshold: Duration,
                                          a: seq<Tick>, b: seq<Tick>)
    ensures ErrorLog(url, hasOnError, lastAlive, threshold, a + b)
            == ErrorLog(url, hasOnError, lastAlive, threshold, a) + ErrorLog(url, hasOnError, lastAlive, threshold, b)
    decreases |b|
  {
    if b == [] {
      assert a + b == a;
    } else {
      var b' := b[..|b| - 1];
      assert (a + b)[..|a + b| - 1] == a + b';
      assert (a + b)[|a + b| - 1] == b[|b| - 1];
      ErrorLogAppend(url, hasOnError, lastAlive, threshold, a, b');
    }
  }

  /**
   * No tick logs more than once; with OnError nil, or when no tick was alive,
   * nothing is logged; every logged error names the heartbeat URL.
   */
  lemma {:induction false} ErrorLogShape(url: string, hasOnError: bool, lastAlive: Time, threshold: Duration, ticks: seq<Tick>)
    ensures |ErrorLog(url, hasOnError, lastAlive, threshold, ticks)| <= |ticks|
    ensures !hasOnError ==> ErrorLog(url, hasOnError, lastAlive, threshold, ticks) == []
    ensures forall e :: e in ErrorLog(url, hasOnError, lastAlive, threshold, ticks) ==> e.url == url
    ensures (forall i :: 0 <= i < |ticks| ==> !Liveness.IsAlive(lastAlive, threshold, ticks[i].now))
            ==> ErrorLog(url, hasOnError, lastAlive, threshold, ticks) == []
    decreases |ticks|
  {
    if ticks != [] {
      var init := ticks[..|ticks| - 1];
      ErrorLogShape(url, hasOnError, lastAlive, threshold, init);
      if forall i :: 0 <= i < |ticks| ==> !Liveness.IsAlive(lastAlive, threshold, ticks[i].now) {
        assert forall i :: 0 <= i < |init| ==> init[i] == ticks[i];
      }
    }
  }
}
