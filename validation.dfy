/**
 * NewHeartbeat's checks on a Config, in the order the code runs them, and the
 * HTTP timeout it derives when the caller sets none.
 */
module Validation {
  import opened Wrappers
  import opened Clock

  /** The caller's configuration. `hasOnError` says whether OnError is non-nil. */
  datatype Config = Config(
    heartbeatInterval: Duration,
    livenessThreshold: Duration,
    heartbeatURL: string,
    httpTimeout: Duration,
    port: int,
    hasOnError: bool)

  /** The five ways NewHeartbeat rejects a Config, listed in the order it checks them. */
  datatype ConfigError =
    | ThresholdNotPositive     // "liveness threshold must be positive"
    | IntervalNotPositive      // "heartbeat interval must be positive"
    | TimeoutNotBelowInterval  // "timeout must be less than heartbeat interval"
    | PortOutOfRange           // "port must be in the range [0, 65535]"
    | NothingToDo              // "heartbeat URL must be set"

  /** What a successful NewHeartbeat builds its heartbeat from; `timeout` is the HTTP client's. */
  datatype Settings = Settings(
    heartbeatInterval: Duration,
    livenessThreshold: Duration,
    heartbeatURL: string,
    timeout: Duration,
    port: int,
    hasOnError: bool)

  /** Every check the Config fails, taken independently of the others. */
  function Violations(cfg: Config): set<ConfigError> {
    (if cfg.livenessThreshold <= 0 then {ThresholdNotPositive} else {})
    + (if cfg.heartbeatInterval <= 0 then {IntervalNotPositive} else {})
    + (if cfg.httpTimeout != 0 && cfg.httpTimeout >= cfg.heartbeatInterval then {TimeoutNotBelowInterval} else {})
    + (if cfg.port < 0 || cfg.port > 65535 then {PortOutOfRange} else {})
    + (if cfg.heartbeatURL == "" && cfg.port == 0 then {NothingToDo} else {})
  }

  /** The position of a check in NewHeartbeat's sequence. */
  function Rank(e: ConfigError): nat {
    match e
    case ThresholdNotPositive => 0
    case IntervalNotPositive => 1
    case TimeoutNotBelowInterval => 2
    case PortOutOfRange => 3
    case NothingToDo => 4
  }

  /** What every validated configuration satisfies. */
  predicate SettingsValid(s: Settings) {
    && s.livenessThreshold > 0
    && s.heartbeatInterval > 0
    && 0 <= s.port <= 65535
    && (s.heartbeatURL != "" || s.port != 0)
  }

  /**
   * The HTTP client timeout: the caller's when set, otherwise
   * max(interval - 1s, 1s).
   */
  function EffectiveTimeout(interval: Duration, httpTimeout: Duration): (t: Duration)
    requires interval > 0
    ensures httpTimeout != 0 ==> t == httpTimeout
    ensures httpTimeout == 0 ==> t >= SECOND && t >= interval - SECOND
    ensures httpTimeout == 0 ==> t == SECOND || t == interval - SECOND
  {
    if httpTimeout == 0 then
      var fallback := interval - SECOND;
      if fallback < SECOND then SECOND else fallback
    else
      httpTimeout
  }

  /**
   * NewHeartbeat's validation: it fails exactly when some check fails, and
   * then with the first failing check in code order; otherwise it copies
   * the configuration and adds the effective timeout.
   */
  function Validate(cfg: Config): (r: Result<Settings, ConfigError>)
    ensures r.Failure? <==> Violations(cfg) != {}
    ensures r.Failure? ==> r.error in Violations(cfg)
    ensures r.Failure? ==> forall e :: e in Violations(cfg) ==> Rank(r.error) <= Rank(e)
    ensures r.Success? ==> SettingsValid(r.value)
    ensures r.Success? ==> r.value == Settings(cfg.heartbeatInterval, cfg.livenessThreshold, cfg.heartbeatURL,
                                               EffectiveTimeout(cfg.heartbeatInterval, cfg.httpTimeout),
                                               cfg.port, cfg.hasOnError)
  {
    if cfg.livenessThreshold <= 0 then Failure(ThresholdNotPositive)
    else if cfg.heartbeatInterval <= 0 then Failure(IntervalNotPositive)
    else if cfg.httpTimeout != 0 && cfg.httpTimeout >= cfg.heartbeatInterval then Failure(TimeoutNotBelowInterval)
    else if cfg.port < 0 || cfg.port > 65535 then Failure(PortOutOfRange)
    else if cfg.heartbeatURL == "" && cfg.port == 0 then Failure(NothingToDo)
    else
      Success(Settings(cfg.heartbeatInterval, cfg.livenessThreshold, cfg.heartbeatURL,
                       EffectiveTimeout(cfg.heartbeatInterval, cfg.httpTimeout),
                       cfg.port, cfg.hasOnError))
  }

  /**
   * The client timeout of a validated configuration stays below the interval
   * exactly when the caller set one or the interval is longer than a second;
   * an interval of a second or less gets the one-second floor, which is not
   * below it.
   */
  lemma TimeoutBelowInterval(cfg: Config)
    requires Validate(cfg).Success?
    ensures Validate(cfg).value.timeout < cfg.heartbeatInterval <==> cfg.httpTimeout != 0 || cfg.heartbeatInterval > SECOND
  {
  }

  /**
   * The timeout check only bounds a set timeout from above, so a negative one
   * passes and is handed to the HTTP client unchanged.
   */
  lemma NegativeTimeoutAccepted(cfg: Config)
    requires cfg.httpTimeout < 0
    requires cfg.livenessThreshold > 0 && cfg.heartbeatInterval > 0
    requires 0 <= cfg.port <= 65535 && (cfg.heartbeatURL != "" || cfg.port != 0)
    ensures Validate(cfg).Success? && Validate(cfg).value.timeout == cfg.httpTimeout
  {
  }
}
