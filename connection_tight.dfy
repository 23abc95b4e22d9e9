/** The PostgreSQL connection lifecycle of templates/api/src/backend/db/connection.py:
    a background retry loop that tries once a second until connected, rate-
    limited warnings, a monitor that probes every 30 seconds, and the
    non-blocking health snapshot.

    Pools are named by the number of pools opened before them. The outcome of
    every pool creation, probe, table creation and re-creation, and the clock
    reading at each failure, are inputs; sleeps and task scheduling are not
    modelled, so a blocking wait shows up as `Blocked`. */
module ConnectionTight {
  import opened Wrappers
  import opened PyValue
  import opened Logging
  import opened Schema

  /** The module globals, plus the log and the clock readings at which the
      rate-limited warning was written. */
  datatype Conn = Conn(
    pool: Option<nat>,
    poolsOpened: nat,
    connected: bool,
    lastError: Option<string>,
    lastLogTime: real,
    reconnectTask: bool,
    monitorsStarted: nat,
    warnings: seq<real>,
    log: seq<LogLine>)

  /** The globals at import time. */
  function Initial(): Conn {
    Conn(None, 0, false, None, 0.0, false, 0, [], [])
  }

  /** `_connected` is only ever true with a pool in place. */
  predicate Coherent(s: Conn) {
    s.connected ==> s.pool.Some?
  }

  // ---------------------------------------------------------------------------
  // _connection_retry_loop
  // ---------------------------------------------------------------------------

  const RateWindow: real := 10.0

  /** The `except` branch: record the error, and warn only when the last
      warning is at least ten seconds old. The one-second sleep follows. */
  function Failed(s: Conn, error: string, now: real): Conn {
    var s' := s.(lastError := Some(error));
    if now - s.lastLogTime >= RateWindow then
      s'.(log := s.log + [WarningLine("PostgreSQL connection failed, retrying: " + error)],
          lastLogTime := now, warnings := s.warnings + [now])
    else s'
  }

  /** `_pool = await create_pool()` succeeding. */
  function Opened(s: Conn): Conn {
    s.(pool := Some(s.poolsOpened), poolsOpened := s.poolsOpened + 1)
  }

  /** The rest of the `try` once the probe answered: create_tables, then
      `_connected = True` and the monitor task. */
  function Connected(s: Conn, probe: Probe, tables: SchemaSteps): Conn {
    var probed := if ProbeSaysYes(probe) then s.log + [InfoLine("PostgreSQL connection successful")] else s.log;
    s.(connected := true,
       log := probed + CreateTables(tables).log + [InfoLine("PostgreSQL connection established successfully")],
       monitorsStarted := s.monitorsStarted + 1)
  }

  function RetryStep(s: Conn, a: Attempt, now: real): Conn {
    var s1 := s.(log := s.log + [InfoLine("Connecting to PostgreSQL...")]);
    match a
    case PoolFails(e) => Failed(s1, e, now)
    case PoolOpens(probe, tables) =>
      if probe.ProbeRaises? then Failed(Opened(s1), probe.error, now)
      else Connected(Opened(s1), probe, tables)
  }

  /** `while not _connected`, over the attempts the environment supplies and
      the clock reading at each. */
  function RetryRun(s: Conn, attempts: seq<Attempt>, times: seq<real>): Conn
    requires |attempts| == |times|
    decreases |attempts|
  {
    if attempts == [] || s.connected then s
    else RetryRun(RetryStep(s, attempts[0], times[0]), attempts[1..], times[1..])
  }

  /** A pass connects exactly when the pool opened and the probe did not
      raise; a failed pass keeps its error text and leaves `_connected`
      false. The pool is replaced whenever creation succeeds, even if the
      probe then fails. */
  lemma RetryStepOutcome(s: Conn, a: Attempt, now: real)
    requires !s.connected
    ensures var s' := RetryStep(s, a, now);
      && (s'.connected <==> Succeeds(a))
      && (a.PoolFails? ==> s'.lastError == Some(a.error) && s'.pool == s.pool)
      && (a.PoolOpens? ==> s'.pool == Some(s.poolsOpened) && s'.poolsOpened == s.poolsOpened + 1)
      && (a.PoolOpens? && a.probe.ProbeRaises? ==> s'.lastError == Some(a.probe.error))
      && (Succeeds(a) ==> s'.lastError == s.lastError && s'.monitorsStarted == s.monitorsStarted + 1)
      && (!Succeeds(a) ==> s'.monitorsStarted == s.monitorsStarted)
  {
  }

  /** A warning is written exactly when ten seconds have passed since the last
      one, and only then does the timestamp move. */
  lemma FailedWarning(s: Conn, error: string, now: real)
    ensures var s' := Failed(s, error, now);
      && (|s'.warnings| == |s.warnings| + 1 <==> now - s.lastLogTime >= RateWindow)
      && (now - s.lastLogTime >= RateWindow ==> s'.lastLogTime == now && s'.warnings == s.warnings + [now])
      && (now - s.lastLogTime < RateWindow ==> s'.lastLogTime == s.lastLogTime && s'.warnings == s.warnings)
  {
  }

  /** Warnings so far are at least ten seconds apart, and none is later than
      the stored timestamp. */
  ghost predicate Spaced(s: Conn) {
    && (forall i :: 0 <= i < |s.warnings| ==> s.warnings[i] <= s.lastLogTime)
    && (forall i, j :: 0 <= i < j < |s.warnings| ==> s.warnings[j] - s.warnings[i] >= RateWindow)
  }

  lemma SpacedInitial()
    ensures Spaced(Initial())
  {
  }

  lemma SpacedFailed(s: Conn, error: string, now: real)
    requires Spaced(s)
    ensures Spaced(Failed(s, error, now))
  {
  }

  lemma SpacedRetryStep(s: Conn, a: Attempt, now: real)
    requires Spaced(s)
    ensures Spaced(RetryStep(s, a, now))
  {
    var s1 := s.(log := s.log + [InfoLine("Connecting to PostgreSQL...")]);
    if a.PoolFails? {
      SpacedFailed(s1, a.error, now);
    } else if a.probe.ProbeRaises? {
      SpacedFailed(Opened(s1), a.probe.error, now);
    }
  }

  /** However the clock moves, the retry loop never writes two connection
      warnings less than ten seconds apart. */
  lemma {:induction false} SpacedRetryRun(s: Conn, attempts: seq<Attempt>, times: seq<real>)
    requires |attempts| == |times| && Spaced(s)
    ensures Spaced(RetryRun(s, attempts, times))
    decreases |attempts|
  {
    if attempts != [] && !s.connected {
      SpacedRetryStep(s, attempts[0], times[0]);
      SpacedRetryRun(RetryStep(s, attempts[0], times[0]), attempts[1..], times[1..]);
    }
  }

  /** The loop ends connected exactly when some attempt succeeds, and then it
      has started exactly one monitor. */
  lemma {:induction false} RetryRunConnects(s: Conn, attempts: seq<Attempt>, times: seq<real>)
    requires |attempts| == |times| && !s.connected
    ensures var s' := RetryRun(s, attempts, times);
      && (s'.connected <==> exists i :: 0 <= i < |attempts| && Succeeds(attempts[i]))
      && s'.monitorsStarted == s.monitorsStarted + (if s'.connected then 1 else 0)
    decreases |attempts|
  {
    if attempts != [] {
      RetryStepOutcome(s, attempts[0], times[0]);
      var s1 := RetryStep(s, attempts[0], times[0]);
      if !s1.connected {
        RetryRunConnects(s1, attempts[1..], times[1..]);
        if exists i :: 0 <= i < |attempts| && Succeeds(attempts[i]) {
          var i :| 0 <= i < |attempts| && Succeeds(attempts[i]);
          assert i > 0 && Succeeds(attempts[1..][i - 1]);
        }
      }
    }
  }

  lemma {:induction false} CoherentRetryRun(s: Conn, attempts: seq<Attempt>, times: seq<real>)
    requires |attempts| == |times| && Coherent(s)
    ensures Coherent(RetryRun(s, attempts, times))
    decreases |attempts|
  {
    if attempts != [] && !s.connected {
      CoherentRetryRun(RetryStep(s, attempts[0], times[0]), attempts[1..], times[1..]);
    }
  }

  // ---------------------------------------------------------------------------
  // _monitor_connection
  // ---------------------------------------------------------------------------

  /** One 30-second check: the probe passes, or it fails and closing the old
      pool and creating a new one either succeeds or fails with a message. */
  datatype Check = Healthy | Lost(error: string, reopen: Outcome<string>)

  predicate Monitoring(s: Conn) {
    s.pool.Some? && s.connected
  }

  function MonitorTick(s: Conn, c: Check): Conn {
    match c
    case Healthy => s
    case Lost(e, reopen) =>
      var lost := s.log + [ErrorLine("Database connection lost: " + e), InfoLine("Attempting to reconnect...")];
      if reopen.Pass? then
        s.(pool := Some(s.poolsOpened), poolsOpened := s.poolsOpened + 1, connected := true,
           log := lost + [InfoLine("Successfully reconnected to database")])
      else
        s.(connected := false, log := lost + [ErrorLine("Failed to reconnect: " + reopen.error)])
  }

  /** `while _pool and _connected`, over the checks the environment supplies. */
  function MonitorRun(s: Conn, checks: seq<Check>): Conn
    decreases |checks|
  {
    if checks == [] || !Monitoring(s) then s
    else MonitorRun(MonitorTick(s, checks[0]), checks[1..])
  }

  /** After a check the pool is still set; `_connected` is true again exactly
      when the probe passed or the pool was re-created. */
  lemma MonitorTickOutcome(s: Conn, c: Check)
    requires Monitoring(s)
    ensures var s' := MonitorTick(s, c);
      && s'.pool.Some?
      && (s'.connected <==> c.Healthy? || c.reopen.Pass?)
      && (c.Healthy? ==> s' == s)
      && (c.Lost? && c.reopen.Fail? ==> s'.pool == s.pool)
      && s'.reconnectTask == s.reconnectTask && s'.monitorsStarted == s.monitorsStarted
  {
  }

  /** A failed re-creation ends the monitor: later checks are never made, the
      old pool stays referenced, and nothing starts a new retry loop. */
  lemma MonitorStopsAfterFailedReopen(s: Conn, e: string, m: string, rest: seq<Check>)
    requires Monitoring(s)
    ensures var s' := MonitorTick(s, Lost(e, Fail(m)));
      && MonitorRun(s, [Lost(e, Fail(m))] + rest) == s'
      && !s'.connected && s'.pool == s.pool
      && s'.monitorsStarted == s.monitorsStarted
  {
    var checks := [Lost(e, Fail(m))] + rest;
    assert checks[0] == Lost(e, Fail(m)) && checks[1..] == rest;
  }

  /** Passing checks change nothing. */
  lemma {:induction false} MonitorRunHealthy(s: Conn, checks: seq<Check>)
    requires forall i :: 0 <= i < |checks| ==> checks[i] == Healthy
    ensures MonitorRun(s, checks) == s
    decreases |checks|
  {
    if checks != [] && Monitoring(s) {
      MonitorRunHealthy(s, checks[1..]);
    }
  }

  lemma {:induction false} CoherentMonitorRun(s: Conn, checks: seq<Check>)
    requires Coherent(s)
    ensures Coherent(MonitorRun(s, checks))
    decreases |checks|
  {
    if checks != [] && Monitoring(s) {
      CoherentMonitorRun(MonitorTick(s, checks[0]), checks[1..]);
    }
  }

  // ---------------------------------------------------------------------------
  // close_db, get_connection, is_connected, health_check, init_db
  // ---------------------------------------------------------------------------

  function CloseDbState(s: Conn): Conn {
    var s' := s.(reconnectTask := false);
    if s.pool.Some? then
      s'.(pool := None, connected := false, log := s.log + [InfoLine("Database connection pool closed")])
    else s'
  }

  /** close_db clears the task and the pool; a coherent state ends
      disconnected. */
  lemma CloseDbSpec(s: Conn)
    ensures var s' := CloseDbState(s);
      && !s'.reconnectTask && s'.pool.None?
      && (Coherent(s) ==> !s'.connected)
      && (s.pool.None? ==> s'.log == s.log && s'.connected == s.connected)
      && s'.lastError == s.lastError && s'.lastLogTime == s.lastLogTime
  {
  }

  /** A call that first waits for `_connected`: still waiting, or done. */
  datatype Wait<T> = Blocked | Ready(value: T)

  /** get_connection: waits for `_connected`, then needs a pool. */
  function GetConnection(s: Conn): Wait<Result<nat, string>> {
    if !s.connected then Blocked
    else if s.pool.None? then Ready(Failure("Database pool not available"))
    else Ready(Success(s.pool.value))
  }

  /** In a coherent state the "pool not available" error cannot occur: once
      the wait is over a connection comes from the current pool. */
  lemma GetConnectionSpec(s: Conn)
    ensures GetConnection(s).Blocked? <==> !s.connected
    ensures Coherent(s) && s.connected ==> GetConnection(s) == Ready(Success(s.pool.value))
  {
  }

  /** is_connected: waits for `_connected`, then probes. */
  function IsConnected(s: Conn, probe: Probe): Wait<bool> {
    if !s.connected then Blocked
    else if s.pool.None? then Ready(false)
    else Ready(ProbeSaysYes(probe))
  }

  lemma IsConnectedSpec(s: Conn, probe: Probe)
    ensures IsConnected(s, probe).Blocked? <==> !s.connected
    ensures IsConnected(s, probe) == Ready(true) <==> s.connected && s.pool.Some? && probe == Row(1)
  {
  }

  /** health_check: a snapshot of the globals that never waits. */
  function HealthCheck(s: Conn): Dict {
    if !s.connected then
      [("connected", Bool(false)), ("status", Str("connecting")),
       ("last_error", if s.lastError.Some? then Str(s.lastError.value) else Null)]
    else [("connected", Bool(true)), ("status", Str("healthy"))]
  }

  lemma HealthCheckSpec(s: Conn)
    ensures var h := HealthCheck(s);
      && Get(h, "connected") == Some(Bool(s.connected))
      && Get(h, "status") == Some(Str(if s.connected then "healthy" else "connecting"))
      && (HasKey(h, "last_error") <==> !s.connected)
      && (!s.connected ==> GetOrNull(h, "last_error") == (if s.lastError.Some? then Str(s.lastError.value) else Null))
  {
    var h := HealthCheck(s);
    if !s.connected {
      assert Keys(h) == ["connected", "status", "last_error"];
    } else {
      assert Keys(h) == ["connected", "status"];
    }
  }

  /** init_db only logs; init_connection starts the retry task. */
  function InitDbState(s: Conn, usePostgres: bool): Conn {
    s.(log := s.log + [InfoLine(if usePostgres then "PostgreSQL client initialized" else "PostgreSQL is disabled (USE_POSTGRES=False)")])
  }

  lemma InitDbOnlyLogs(s: Conn, usePostgres: bool)
    ensures InitDbState(s, usePostgres).(log := s.log) == s
    ensures |InitDbState(s, usePostgres).log| == |s.log| + 1
  {
  }

  function InitConnectionState(s: Conn): Conn {
    s.(reconnectTask := true)
  }

  // ---------------------------------------------------------------------------
  // The module globals as an object
  // ---------------------------------------------------------------------------

  class Connection {
    var pool: Option<nat>
    var poolsOpened: nat
    var connected: bool
    var lastError: Option<string>
    var lastLogTime: real
    var reconnectTask: bool
    ghost var monitorsStarted: nat   // how many monitor loops were started
    ghost var warnings: seq<real>    // when each rate-limited warning went out
    var log: seq<LogLine>

    ghost function Snapshot(): Conn
      reads this
    {
      Conn(pool, poolsOpened, connected, lastError, lastLogTime, reconnectTask, monitorsStarted, warnings, log)
    }

    constructor()
      ensures Snapshot() == Initial()
    {
      pool, poolsOpened, connected := None, 0, false;
      lastError, lastLogTime := None, 0.0;
      reconnectTask, monitorsStarted := false, 0;
      warnings, log := [], [];
    }

    method InitDb(usePostgres: bool)
      modifies this
      ensures Snapshot() == InitDbState(old(Snapshot()), usePostgres)
    {
      if !usePostgres {
        log := log + [InfoLine("PostgreSQL is disabled (USE_POSTGRES=False)")];
        return;
      }
      log := log + [InfoLine("PostgreSQL client initialized")];
    }

    method InitConnection()
      modifies this
      ensures Snapshot() == InitConnectionState(old(Snapshot()))
    {
      reconnectTask := true;
    }

    /** One pass of the body of `while not _connected`. */
    method RetryAttempt(a: Attempt, now: real)
      modifies this
      ensures Snapshot() == RetryStep(old(Snapshot()), a, now)
    {
      log := log + [InfoLine("Connecting to PostgreSQL...")];
      if a.PoolFails? {
        RecordFailure(a.error, now);
        return;
      }
      pool := Some(poolsOpened);
      poolsOpened := poolsOpened + 1;
      if a.probe.ProbeRaises? {
        RecordFailure(a.probe.error, now);
        return;
      }
      MarkConnected(a.probe, a.tables);
    }

    method MarkConnected(probe: Probe, tables: SchemaSteps)
      modifies this
      ensures Snapshot() == Connected(old(Snapshot()), probe, tables)
    {
      if ProbeSaysYes(probe) {
        log := log + [InfoLine("PostgreSQL connection successful")];
      }
      log := log + CreateTables(tables).log;
      connected := true;
      log := log + [InfoLine("PostgreSQL connection established successfully")];
      monitorsStarted := monitorsStarted + 1;
    }

    /** The `except` branch of the retry loop. */
    method RecordFailure(error: string, now: real)
      modifies this
      ensures Snapshot() == Failed(old(Snapshot()), error, now)
    {
      lastError := Some(error);
      if now - lastLogTime >= RateWindow {
        log := log + [WarningLine("PostgreSQL connection failed, retrying: " + error)];
        lastLogTime := now;
        warnings := warnings + [now];
      }
    }

    /** `_connection_retry_loop`; returns how many attempts it made. */
    method ConnectionRetryLoop(attempts: seq<Attempt>, times: seq<real>) returns (used: nat)
      requires |attempts| == |times|
      modifies this
      ensures Snapshot() == RetryRun(old(Snapshot()), attempts, times)
      ensures used <= |attempts| && (connected || used == |attempts|)
    {
      used := 0;
      while !connected && used < |attempts|
        invariant used <= |attempts|
        invariant RetryRun(Snapshot(), attempts[used..], times[used..]) == RetryRun(old(Snapshot()), attempts, times)
        decreases |attempts| - used
      {
        assert attempts[used..][1..] == attempts[used + 1..] && times[used..][1..] == times[used + 1..];
        RetryAttempt(attempts[used], times[used]);
        used := used + 1;
      }
    }

    method MonitorCheck(c: Check)
      modifies this
      ensures Snapshot() == MonitorTick(old(Snapshot()), c)
    {
      if c.Lost? {
        log := log + [ErrorLine("Database connection lost: " + c.error)];
        connected := false;
        log := log + [InfoLine("Attempting to reconnect...")];
        if c.reopen.Pass? {
          pool := Some(poolsOpened);
          poolsOpened := poolsOpened + 1;
          connected := true;
          log := log + [InfoLine("Successfully reconnected to database")];
        } else {
          log := log + [ErrorLine("Failed to reconnect: " + c.reopen.error)];
        }
      }
    }

    /** `_monitor_connection`; returns how many checks it made. */
    method MonitorConnection(checks: seq<Check>) returns (used: nat)
      modifies this
      ensures Snapshot() == MonitorRun(old(Snapshot()), checks)
      ensures used <= |checks| && (!Monitoring(Snapshot()) || used == |checks|)
    {
      used := 0;
      while pool.Some? && connected && used < |checks|
        invariant used <= |checks|
        invariant MonitorRun(Snapshot(), checks[used..]) == MonitorRun(old(Snapshot()), checks)
        decreases |checks| - used
      {
        assert checks[used..][1..] == checks[used + 1..];
        MonitorCheck(checks[used]);
        used := used + 1;
      }
    }

    method CloseDb()
      modifies this
      ensures Snapshot() == CloseDbState(old(Snapshot()))
    {
      if reconnectTask {
        reconnectTask := false;
      }
      if pool.Some? {
        pool := None;
        connected := false;
        log := log + [InfoLine("Database connection pool closed")];
      }
    }
  }
}
