/**
 * The heartbeat object: its configuration, the mutable record of the last
 * report and the one-shot start flag, and the background tasks it launches.
 * Each method runs under the object's mutex in the code, so each is modelled
 * as one sequential step.
 */
module Monitor {
  import opened Wrappers
  import opened Clock
  import opened Validation
  import Http
  import Liveness
  import Push
  import Serve

  /** A background task Start can launch. */
  datatype Task = PushLoop | HealthServer

  /** The tasks Start launches: the push loop only with a URL, the health server only with a port. */
  function LaunchedTasks(url: string, port: int): (tasks: seq<Task>)
    ensures PushLoop in tasks <==> url != ""
    ensures HealthServer in tasks <==> port != 0
    ensures forall i, j :: 0 <= i < j < |tasks| ==> tasks[i] != tasks[j]
  {
    (if url != "" then [PushLoop] else []) + (if port != 0 then [HealthServer] else [])
  }

  /** A configuration NewHeartbeat accepts always gives Start something to launch. */
  lemma ValidatedLaunchesSomething(cfg: Config)
    requires Validate(cfg).Success?
    ensures LaunchedTasks(cfg.heartbeatURL, cfg.port) != []
  {
    if cfg.heartbeatURL == "" {
      assert HealthServer in LaunchedTasks(cfg.heartbeatURL, cfg.port);
    } else {
      assert PushLoop in LaunchedTasks(cfg.heartbeatURL, cfg.port);
    }
  }

  class Heartbeat {
    const heartbeatInterval: Duration
    const livenessThreshold: Duration
    const heartbeatURL: string
    /** The HTTP client's timeout. */
    const timeout: Duration
    const serverPort: int
    const hasOnError: bool

    var lastAlive: Time
    var started: bool
    /** The background tasks launched so far. */
    var tasks: seq<Task>

    /** The configuration this object was built from. */
    function Setup(): Settings {
      Settings(heartbeatInterval, livenessThreshold, heartbeatURL, timeout, serverPort, hasOnError)
    }

    ghost predicate Valid()
      reads this
    {
      && SettingsValid(Setup())
      && tasks == (if started then LaunchedTasks(heartbeatURL, serverPort) else [])
    }

    /** The heartbeat NewHeartbeat returns: configuration copied, not started, never reported alive. */
    constructor (s: Settings)
      requires SettingsValid(s)
      ensures Valid()
      ensures Setup() == s
      ensures lastAlive == ZERO_TIME && !started && tasks == []
    {
      heartbeatInterval := s.heartbeatInterval;
      livenessThreshold := s.livenessThreshold;
      heartbeatURL := s.heartbeatURL;
      timeout := s.timeout;
      serverPort := s.port;
      hasOnError := s.hasOnError;
      lastAlive := ZERO_TIME;
      started := false;
      tasks := [];
    }

    /**
     * Start: the first call sets `started` and launches the configured tasks;
     * every later call changes nothing. The record of the last report is not touched.
     */
    method Start()
      requires Valid()
      modifies this`started, this`tasks
      ensures Valid() && started
      ensures old(started) ==> tasks == old(tasks)
      ensures tasks == LaunchedTasks(heartbeatURL, serverPort)
      ensures lastAlive == old(lastAlive)
    {
      if started {
        return;
      }
      started := true;
      tasks := tasks + StartHeartbeat();
      tasks := tasks + StartHttpServer();
    }

    /** The push loop, launched only when a heartbeat URL is set. */
    function StartHeartbeat(): (launched: seq<Task>)
      ensures launched != [] <==> heartbeatURL != ""
      ensures |launched| <= 1 && forall t :: t in launched ==> t == PushLoop
    {
      if heartbeatURL == "" then [] else [PushLoop]
    }

    /** The health server, launched only when a port is set. */
    function StartHttpServer(): (launched: seq<Task>)
      ensures launched != [] <==> serverPort != 0
      ensures |launched| <= 1 && forall t :: t in launched ==> t == HealthServer
    {
      if serverPort == 0 then [] else [HealthServer]
    }

    /** Alive(at): the record moves forward to `at`, never back; `started` is not touched. */
    method Alive(at: Time)
      requires Valid()
      modifies this`lastAlive
      ensures Valid()
      ensures lastAlive == Liveness.AliveStep(old(lastAlive), at)
      ensures lastAlive >= old(lastAlive)
      ensures at <= old(lastAlive) ==> lastAlive == old(lastAlive)
      ensures started == old(started) && tasks == old(tasks)
    {
      if lastAlive < at {
        lastAlive := at;
      }
    }

    /** okUnlocked at `now`: time.Since(lastAlive), a saturated Duration, below the threshold. */
    function Ok(now: Time): (alive: bool)
      reads this
      requires Valid()
      ensures alive <==> Liveness.IsAlive(lastAlive, livenessThreshold, now)
    {
      SubBelowExact(now, lastAlive, livenessThreshold);
      Sub(now, lastAlive) < livenessThreshold
    }

    /**
     * The push task's loop over the ticks it sees, returning the errors it hands
     * to OnError in order. Without a heartbeat URL there is no push task, so no
     * tick does anything.
     */
    method RunPush(ticks: seq<Push.Tick>) returns (emitted: seq<Push.PushError>)
      requires Valid() && started
      ensures emitted == if heartbeatURL == "" then []
                         else Push.ErrorLog(heartbeatURL, hasOnError, lastAlive, livenessThreshold, ticks)
    {
      emitted := [];
      if heartbeatURL == "" {
        return;
      }
      for i := 0 to |ticks|
        invariant emitted == Push.ErrorLog(heartbeatURL, hasOnError, lastAlive, livenessThreshold, ticks[..i])
      {
        assert ticks[..i + 1][..i] == ticks[..i];
        var tick := ticks[i];
        if !Ok(tick.now) {
          continue;
        }
        var err: Option<Push.PushError> := None;
        match tick.attempt {
          case TransportFailed(detail) =>
            err := Some(Push.PushError(heartbeatURL, detail));
          case Responded(code, status, _) =>
            if code < 200 || code > 299 {
              err := Some(Push.PushError(heartbeatURL, status));
            }
        }
        if err.Some? {
          if hasOnError {
            emitted := emitted + [err.value];
          }
          continue;
        }
        var body := tick.attempt.body;
        if body.ReadFailed? {
          continue;
        }
        if body.ack.Some? && !body.ack.value.ok {
          err := Some(Push.PushError(heartbeatURL, body.ack.value.msg));
        } else {
          err := None;
        }
        if err.Some? && hasOnError {
          emitted := emitted + [err.value];
        }
      }
      assert ticks[..|ticks|] == ticks;
    }

    /** The health handler answering one request at `now`; liveness is read only for a GET. */
    method ServeRequest(verb: string, now: Time) returns (response: Serve.Response)
      requires Valid() && started && serverPort != 0
      ensures response == Serve.Handle(verb, Liveness.IsAlive(lastAlive, livenessThreshold, now))
    {
      if verb != Http.METHOD_GET {
        return Serve.Response(Http.STATUS_METHOD_NOT_ALLOWED, Serve.BODY_METHOD_NOT_ALLOWED);
      }
      if Ok(now) {
        response := Serve.Response(Http.STATUS_OK, Serve.BODY_OK);
      } else {
        response := Serve.Response(Http.STATUS_SERVICE_UNAVAILABLE, Serve.BODY_NOT_OK);
      }
    }

    /** What the health task reports when ListenAndServe returns; with port 0 there is no such task. */
    method ListenerExit(err: Serve.ListenError) returns (reported: Option<string>)
      requires Valid() && started
      ensures reported == if serverPort == 0 then None else Serve.ListenerReport(err, hasOnError)
    {
      if serverPort == 0 {
        return None;
      }
      if err.ListenFailed? && hasOnError {
        reported := Some(err.detail);
      } else {
        reported := None;
      }
    }
  }

  /**
   * NewHeartbeat: an invalid configuration yields the first failing check and
   * no heartbeat; a valid one yields a fresh, unstarted heartbeat with the
   * configuration copied and the effective timeout.
   */
  method NewHeartbeat(cfg: Config) returns (h: Heartbeat?, err: Option<ConfigError>)
    ensures Validate(cfg).Failure? ==> h == null && err == Some(Validate(cfg).error)
    ensures Validate(cfg).Success? ==> err == None && h != null && fresh(h) && h.Valid()
    ensures Validate(cfg).Success? ==> h.Setup() == Validate(cfg).value
    ensures Validate(cfg).Success? ==> h.lastAlive == ZERO_TIME && !h.started
  {
    match Validate(cfg)
    case Failure(e) =>
      h, err := null, Some(e);
    case Success(s) =>
      h := new Heartbeat(s);
      err := None;
  }
}
