# heartbeat — a Dafny model of its decision core

The heartbeat package sends a heartbeat GET to a monitoring URL on every
tick of a ticker, but only while the process it watches has called
`Alive` recently enough. It can also serve a local health endpoint that
answers with the same judgment. This project models the sequential logic
under the goroutines, the ticker and the HTTP plumbing:

- `Validation` (`validation.dfy`): the checks `NewHeartbeat` runs on a
  `Config`, in order, and the default HTTP timeout
  `max(interval - 1s, 1s)`.
- `Liveness` (`liveness.dfy`): the "last alive" record. `Alive` only moves
  it forward. The process is alive at `now` when `now - lastAlive` is below
  the liveness threshold.
- `Push` (`push.dfy`): one ticker tick of the push loop. It skips the tick
  when not alive. Otherwise it classifies the request's outcome in the
  code's order: transport error, status outside 2xx, body read failure,
  negative acknowledgement, success. It returns the error handed to
  `OnError`, if any. `ErrorLog` is the specification of a run of ticks.
- `Serve` (`serve.dfy`): the health handler and the rule for reporting a
  listener error.
- `Monitor` (`monitor.dfy`): the `heartbeat` object as a class. It holds
  `lastAlive`, the one-shot `started` flag and the tasks `Start` launched.
  Its methods are `Alive`, `Start`, the liveness test `Ok`, the push loop
  `RunPush`, the handler `ServeRequest` and `ListenerExit`.
  `NewHeartbeat` builds one from a validated `Config`.
- `Clock` (`clock.dfy`): time as an integer count of nanoseconds since Go's
  zero time. A `Duration` is a signed 64-bit count, and `Sub` saturates as
  Go's `Time.Sub` does.
- `Http`, `Wrappers`: status constants, the 2xx class (section 15.3 of RFC
  9110), `Option` and `Result`.

"Now" is a parameter everywhere; nothing reads a clock. The HTTP request is
an input value: a transport error, or a status code, status text and body
read result. Errors passed to `OnError` are returned as sequences or options.
`hasOnError` records whether `OnError` is non-nil.

The push loop and the health server are modelled from `send.go` and
`serve.go`, and the table below cites those files for them.

Where the code and its documentation differ, the model follows the code:

- A 2xx body that is `null`, or a JSON object with no key matching `ok`
  (Go matches keys case-insensitively), decodes with `ok` false when any
  `msg` key holds a string or null. The code then reports an error carrying
  that `msg`, which is empty when there is none, although such a body is
  not an acknowledgement. The model takes the decoded `Ack` as input and
  sees `Read(Some(Ack(false, msg)))`. A `msg` of any other type, or JSON
  that is neither an object nor `null` (`42`, `[]`, `true`), makes the
  decode fail, and the tick succeeds (`Read(None)`).
- The timeout check only requires a set `HTTPTimeout` to be below the
  interval. A negative timeout therefore passes, and Go's HTTP client treats
  it as "no timeout" (`NegativeTimeoutAccepted`).
- The default timeout is not below the interval when the interval is one
  second or less (`TimeoutBelowInterval`).
- With no URL and a non-zero port, validation passes. Both may be set
  together; only "neither" is refused.

## Model

| member | source | states |
|---|---|---|
| `Validation.Validate` | heartbeat.go:36-69 | Fails exactly when one of the five checks fails (threshold ≤ 0, interval ≤ 0, set timeout ≥ interval, port outside [0, 65535], no URL and port 0). It then returns the failing check that comes first in code order, so a bad threshold is reported even when the interval is bad too. On success it copies threshold, interval, URL, port and OnError unchanged and adds the effective timeout. |
| `Validation.EffectiveTimeout` | heartbeat.go:53-59 | A set timeout is used unchanged. An unset one is max(interval − 1s, 1s): at least one second, at least interval − 1s, and equal to one of the two. |
| `Validation.TimeoutBelowInterval` | heartbeat.go:43-59 | After validation, the client timeout is below the interval exactly when a timeout was set or the interval is longer than one second. |
| `Validation.NegativeTimeoutAccepted` | heartbeat.go:43-59 | A negative HTTPTimeout passes validation and becomes the client timeout unchanged. |
| `Clock.Sub` | heartbeat.go:119 | The difference of two instants is exact when it fits in a Duration, and saturates at the largest or smallest Duration otherwise, as `time.Since` does. |
| `Liveness.AliveStep` | heartbeat.go:110-112 | One report leaves the record at the larger of the old value and the report. |
| `Liveness.StaleReportIgnored` | heartbeat.go:110-112 | A report not after the current record changes nothing. |
| `Liveness.FoldIsMax` | heartbeat.go:106-113 | After any run of reports, the record is at least the start value and every report, and equals one of them: it is their maximum. |
| `Liveness.OrderIndependent` | heartbeat.go:106-113 | Two runs of the same reports in any order leave the same record. |
| `Liveness.AliveWindow` | heartbeat.go:115-120 | After a report at T, the process is alive at every now in [T, T + threshold). When T was the newest report, it is alive at now exactly when now < T + threshold. |
| `Clock.SubBelowExact` | heartbeat.go:119 | Comparing the saturated `time.Since` result with a positive threshold agrees with comparing the exact difference. |
| `Push.Message` | send.go:21-25 | The error text is "heartbeat to '", then the URL, then "' failed: ", then the detail, and nothing else. |
| `Push.MessageDetermined` | send.go:21-42 | For one URL, two errors with the same text have the same detail. |
| `Push.Classify` | send.go:18-45 | A tick is skipped exactly when not alive. A transport error fails with its detail. A status outside 200-299 fails with the status text. A 2xx whose body read fails is dropped. A 2xx with a decoded acknowledgement whose ok is false fails with its msg. Exactly the 2xx ticks with a readable body that is not a negative acknowledgement succeed. Every failure names the heartbeat URL. |
| `Push.BodyIrrelevantUnlessSuccessful` | send.go:21-32 | With a status outside 2xx, the body makes no difference to the tick's result. |
| `Push.TickErrors` | send.go:27-49 | A tick hands at most one error to OnError. It hands one exactly when OnError is set and the tick failed, and it is that failure's error. |
| `Push.ErrorLogAppend` | send.go:17-50 | Ticks are independent: the log of two runs back to back is the concatenation of their logs. |
| `Push.ErrorLogShape` | send.go:17-50 | A run of ticks logs at most one error per tick. It logs nothing when OnError is nil or when no tick was alive. Every logged error names the heartbeat URL. |
| `Serve.Handle` | serve.go:16-29 | A non-GET gets 405 with "Method Not Allowed\n", whatever the liveness. A GET gets 200 when alive and 503 when not. The status is 2xx exactly for a GET while alive. The body decodes to the liveness for a GET and to nothing otherwise. |
| `Serve.ListenerReport` | serve.go:31-33 | A listener error is reported only when it is not ErrServerClosed and OnError is set, and then unchanged. |
| `Monitor.LaunchedTasks` | heartbeat.go:91-102 | The push loop is launched exactly when a URL is set, the health server exactly when the port is non-zero, and no task twice. |
| `Monitor.Heartbeat.StartHeartbeat` | send.go:10-13 | The push loop is launched, once, exactly when a heartbeat URL is set; nothing else is launched. |
| `Monitor.Heartbeat.StartHttpServer` | serve.go:9-12 | The health server is launched, once, exactly when the port is non-zero; nothing else is launched. |
| `Monitor.ValidatedLaunchesSomething` | heartbeat.go:49-51 | Every configuration NewHeartbeat accepts gives Start at least one task to launch. |
| `Monitor.NewHeartbeat` | heartbeat.go:36-69 | An invalid config gives no heartbeat and the first failing check. A valid one gives a fresh heartbeat with the validated settings, not started, and lastAlive at the zero time. |
| `Monitor.Heartbeat.constructor` | heartbeat.go:61-68 | Fields copied from the settings, `started` false, no tasks, lastAlive the zero time. |
| `Monitor.Heartbeat.Start` | heartbeat.go:91-102 | Afterwards `started` holds and the launched tasks are exactly the configured ones. A second call changes nothing. lastAlive is not touched. |
| `Monitor.Heartbeat.Alive` | heartbeat.go:106-113 | lastAlive becomes the larger of its old value and the report. It never decreases, and an earlier or equal report leaves it unchanged. `started` and the tasks are not touched. |
| `Monitor.Heartbeat.Ok` | heartbeat.go:115-120 | The saturated `now − lastAlive` is below the threshold exactly when the exact difference is, that is, when the process is alive. |
| `Monitor.Heartbeat.RunPush` | send.go:10-52 | The push loop over a run of ticks hands to OnError exactly the errors `ErrorLog` gives, in tick order. It hands none when no URL is set. |
| `Monitor.Heartbeat.ServeRequest` | serve.go:16-29 | The handler's response is `Handle` of the method and the object's liveness at the request time. |
| `Monitor.Heartbeat.ListenerExit` | serve.go:9-35 | With port 0 there is no listener and nothing is reported. Otherwise the listener's exit is reported as `ListenerReport` says. |

## Left out

- Goroutines, the ticker and the asynchronous `go h.onError(err)` dispatch. Ticks are a sequence, and errors are returned in order.
- The mutex. It only makes each method atomic, so the methods are sequential steps.
- `Monitor.Heartbeat.RunPush` reads `lastAlive` as it stands for the whole run. An `Alive` call between ticks is modelled by splitting the ticks into two runs around it (`Push.ErrorLogAppend`). Interleavings inside a method are not modelled.
- The wall clock and Go's monotonic clock reading. `now` is a parameter and instants are plain nanosecond counts.
- `http.Client.Get`, redirects, `io.ReadAll`, `http.ListenAndServe` and `ServeMux`. These are network I/O and are inputs here. The handler is mounted at "/" and takes no path: the model covers only requests that reach it.
- `ServeMux`'s own answers: a request with a non-canonical path (such as `//x` or `/a/../b`) gets a 301 redirect from `ServeMux` and never reaches the handler. That redirect is not modelled.
- `json.Unmarshal`. Its result is an input, `Option<Ack>`.
- `fmt.Errorf` and the text of `resp.Status` and of transport errors beyond the fixed message around the detail.
- The unclosed response body on the non-2xx path, and `http.Error`'s headers. These are resource and header details, not decisions.
- Setting the HTTP client's timeout. The model records the value; its use by the client is network behaviour.
