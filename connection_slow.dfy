/** The PostgreSQL connection lifecycle of bluetext-demo-v0/backend/src/backend/db/connection.py
    (project/backend/src/backend/db/connection.py is the same file): init_db
    retries every ten seconds with a counter that decides what is logged, the
    monitor keeps going for as long as a pool is referenced, and no
    `_connected` flag exists.

    As in `ConnectionTight`, pools are numbered, every outcome is an input,
    and the sleeps are not modelled. */
module ConnectionSlow {
  import opened Wrappers
  import opened Logging
  import opened Schema
  import Text

  /** The module globals `_pool` and `_reconnect_task`, plus the log. */
  datatype Slow = Slow(pool: Option<nat>, poolsOpened: nat, reconnectTask: bool, log: seq<LogLine>)

  function Initial(): Slow {
    Slow(None, 0, false, [])
  }

  // ---------------------------------------------------------------------------
  // init_db
  // ---------------------------------------------------------------------------

  /** The loop of init_db between passes: the globals, the local
      `retry_count`, and whether the loop has broken out. */
  datatype Retry = Retry(state: Slow, count: nat, done: bool)

  const AttemptEvery := 6

  /** What the `except` branch logs once `retry_count` has become `count`. */
  function FailureLines(count: nat, error: string): seq<LogLine> {
    (if count == 1 then [ErrorLine("Failed to connect to PostgreSQL: " + error)] else [])
    + (if count % AttemptEvery == 0
       then [WarningLine("Still trying to connect to PostgreSQL... (attempt " + Text.IntToString(count) + ")")]
       else [])
  }

  function FailedPass(s: Slow, count: nat, error: string): Retry {
    Retry(s.(log := s.log + FailureLines(count + 1, error)), count + 1, false)
  }

  function Opened(s: Slow): Slow {
    s.(pool := Some(s.poolsOpened), poolsOpened := s.poolsOpened + 1)
  }

  /** After the probe answered: create_tables, then the monitor task is stored
      in `_reconnect_task` and the loop breaks. */
  function Connected(s: Slow, probe: Probe, tables: SchemaSteps): Slow {
    var probed := if ProbeSaysYes(probe) then s.log + [InfoLine("PostgreSQL connection successful")] else s.log;
    s.(log := probed + CreateTables(tables).log, reconnectTask := true)
  }

  function RetryStep(r: Retry, a: Attempt): Retry {
    var s1 := r.state.(log := r.state.log + [ConnectingLine]);
    match a
    case PoolFails(e) => FailedPass(s1, r.count, e)
    case PoolOpens(probe, tables) =>
      if probe.ProbeRaises? then FailedPass(Opened(s1), r.count, probe.error)
      else Retry(Connected(Opened(s1), probe, tables), r.count, true)
  }

  /** `while True`, over the attempts the environment supplies. */
  function RetryLoop(r: Retry, attempts: seq<Attempt>): Retry
    decreases |attempts|
  {
    if attempts == [] || r.done then r
    else RetryLoop(RetryStep(r, attempts[0]), attempts[1..])
  }

  /** init_db: nothing but a log line when PostgreSQL is disabled. */
  function InitDbRun(s: Slow, usePostgres: bool, attempts: seq<Attempt>): Retry {
    if !usePostgres then Retry(s.(log := s.log + [InfoLine("PostgreSQL is disabled (USE_POSTGRES=False)")]), 0, false)
    else RetryLoop(Retry(s, 0, false), attempts)
  }

  lemma InitDbDisabled(s: Slow, attempts: seq<Attempt>)
    ensures var r := InitDbRun(s, false, attempts);
      r.state.pool == s.pool && r.state.poolsOpened == s.poolsOpened && r.state.reconnectTask == s.reconnectTask
      && r.count == 0 && !r.done
  {
  }

  /** Position of the first successful attempt, or the number of attempts. */
  function FirstSuccess(attempts: seq<Attempt>): (k: nat)
    ensures k <= |attempts|
    ensures forall i :: 0 <= i < k ==> !Succeeds(attempts[i])
    ensures k < |attempts| ==> Succeeds(attempts[k])
    decreases |attempts|
  {
    if attempts == [] then 0
    else if Succeeds(attempts[0]) then 0
    else 1 + FirstSuccess(attempts[1..])
  }

  /** The loop breaks only on a successful attempt, counting one retry per
      failure before it; having broken out, a pool and a monitor task are in
      place. */
  lemma {:induction false} RetryLoopOutcome(r: Retry, attempts: seq<Attempt>)
    requires !r.done
    ensures var r' := RetryLoop(r, attempts);
      && (r'.done <==> FirstSuccess(attempts) < |attempts|)
      && r'.count == r.count + FirstSuccess(attempts)
      && (r'.done ==> r'.state.pool.Some? && r'.state.reconnectTask)
      && (!r'.done ==> r'.state.reconnectTask == r.state.reconnectTask)
    decreases |attempts|
  {
    if attempts != [] && !Succeeds(attempts[0]) {
      RetryLoopOutcome(RetryStep(r, attempts[0]), attempts[1..]);
    }
  }

  lemma DivStep(c: nat)
    ensures (c + 1) / AttemptEvery == c / AttemptEvery + (if (c + 1) % AttemptEvery == 0 then 1 else 0)
  {
  }

  /** A failed pass logs the error only on the first attempt and the progress
      warning exactly on every sixth. */
  lemma FailureLogged(s: Slow, count: nat, error: string)
    ensures var lines := FailureLines(count + 1, error);
      && CountLevel(lines, Error) == (if count == 0 then 1 else 0)
      && CountLevel(lines, Warning) == (count + 1) / AttemptEvery - count / AttemptEvery
      && CountLevel(lines, Info) == 0
      && CountLevel(lines, Exception) == 0
  {
    DivStep(count);
    var e := if count + 1 == 1 then [ErrorLine("Failed to connect to PostgreSQL: " + error)] else [];
    var w := if (count + 1) % AttemptEvery == 0
      then [WarningLine("Still trying to connect to PostgreSQL... (attempt " + Text.IntToString(count + 1) + ")")]
      else [];
    CountLevelAppend(e, w, Error);
    CountLevelAppend(e, w, Warning);
    CountLevelAppend(e, w, Info);
    CountLevelAppend(e, w, Exception);
    assert CountLevel([], Error) == 0 && CountLevel([], Warning) == 0 && CountLevel([], Info) == 0 && CountLevel([], Exception) == 0;
    if e != [] {
      assert [ErrorLine("Failed to connect to PostgreSQL: " + error)][..0] == [];
    }
    if w != [] {
      assert w[..0] == [];
    }
  }

  /** How many lines of `level` `n` failed passes write, starting from
      `retry_count = c`: one connecting line per pass, the error once if the
      first attempt is among them, and a warning for every multiple of six
      reached. */
  function Expected(level: Level, c: nat, n: nat): int {
    match level
    case Info => n
    case Error => if c == 0 && n > 0 then 1 else 0
    case Warning => (c + n) / AttemptEvery - c / AttemptEvery
    case Exception => 0
  }

  /** The passes after the first add what remains. */
  lemma ExpectedStep(level: Level, c: nat, n: nat)
    ensures Expected(level, c, n + 1) == Expected(level, c, 1) + Expected(level, c + 1, n)
  {
  }

  lemma {:induction false} FailuresLogged(r: Retry, attempts: seq<Attempt>, level: Level)
    requires !r.done
    requires forall i :: 0 <= i < |attempts| ==> !Succeeds(attempts[i])
    ensures var r' := RetryLoop(r, attempts);
      && !r'.done && r'.count == r.count + |attempts|
      && CountLevel(r'.state.log, level) == CountLevel(r.state.log, level) + Expected(level, r.count, |attempts|)
    decreases |attempts|
  {
    if attempts != [] {
      var a := attempts[0];
      var r1 := RetryStep(r, a);
      assert RetryLoop(r, attempts) == RetryLoop(r1, attempts[1..]);
      assert !r1.done && r1.count == r.count + 1 by {
        PassLog(r, a);
      }
      assert CountLevel(r1.state.log, level) == CountLevel(r.state.log, level) + Expected(level, r.count, 1) by {
        PassLogged(r, a, level);
      }
      assert Expected(level, r.count, |attempts|) == Expected(level, r.count, 1) + Expected(level, r1.count, |attempts| - 1) by {
        ExpectedStep(level, r.count, |attempts| - 1);
      }
      FailuresLogged(r1, attempts[1..], level);
    }
  }

  const ConnectingLine := InfoLine("Connecting to PostgreSQL...")

  /** The error a failed attempt reports. */
  function AttemptError(a: Attempt): string
    requires !Succeeds(a)
  {
    if a.PoolFails? then a.error else a.probe.error
  }

  /** A failed pass writes the connecting line, then the failure lines. */
  lemma PassLog(r: Retry, a: Attempt)
    requires !Succeeds(a)
    ensures var r1 := RetryStep(r, a);
      && r1.state.log == r.state.log + [ConnectingLine] + FailureLines(r.count + 1, AttemptError(a))
      && r1.count == r.count + 1 && !r1.done
  {
  }

  /** What one failed pass adds to the log, level by level. */
  lemma PassLogged(r: Retry, a: Attempt, level: Level)
    requires !Succeeds(a)
    ensures CountLevel(RetryStep(r, a).state.log, level)
        == CountLevel(r.state.log, level) + Expected(level, r.count, 1)
  {
    var lines := FailureLines(r.count + 1, AttemptError(a));
    assert CountLevel(RetryStep(r, a).state.log, level)
        == CountLevel(r.state.log, level) + CountLevel([ConnectingLine], level) + CountLevel(lines, level) by {
      PassLog(r, a);
      CountLevelAppend(r.state.log, [ConnectingLine], level);
      CountLevelAppend(r.state.log + [ConnectingLine], lines, level);
    }
    assert CountLevel([ConnectingLine], level) == (if level == Info then 1 else 0) by {
      assert [ConnectingLine][..0] == [];
    }
    FailureLogged(r.state, r.count, AttemptError(a));
    match level {
      case Info => assert Expected(Info, r.count, 1) == 1;
      case Error => assert Expected(Error, r.count, 1) == (if r.count == 0 then 1 else 0);
      case Warning => assert Expected(Warning, r.count, 1) == (r.count + 1) / AttemptEvery - r.count / AttemptEvery;
      case Exception =>
    }
  }

  // ---------------------------------------------------------------------------
  // _monitor_connection
  // ---------------------------------------------------------------------------

  /** One 30-second check, as in the tight variant. */
  datatype Check = Healthy | Lost(error: string, reopen: Outcome<string>)

  function MonitorTick(s: Slow, c: Check): Slow {
    match c
    case Healthy => s
    case Lost(e, reopen) =>
      var lost := s.log + [ErrorLine("Database connection lost: " + e), InfoLine("Attempting to reconnect...")];
      if reopen.Pass? then
        s.(pool := Some(s.poolsOpened), poolsOpened := s.poolsOpened + 1,
           log := lost + [InfoLine("Successfully reconnected to database")])
      else
        s.(log := lost + [ErrorLine("Failed to reconnect: " + reopen.error)])
  }

  /** `while _pool`. */
  function MonitorRun(s: Slow, checks: seq<Check>): Slow
    decreases |checks|
  {
    if checks == [] || s.pool.None? then s
    else MonitorRun(MonitorTick(s, checks[0]), checks[1..])
  }

  /** Reopens that succeed. */
  function Reopened(checks: seq<Check>): nat
    decreases |checks|
  {
    if checks == [] then 0
    else (if checks[0].Lost? && checks[0].reopen.Pass? then 1 else 0) + Reopened(checks[1..])
  }

  /** The pool is never cleared by the monitor, so it makes every check it is
      given, failed re-creations included, and opens one pool per successful
      re-creation. */
  lemma {:induction false} MonitorRunComplete(s: Slow, a: seq<Check>, b: seq<Check>)
    requires s.pool.Some?
    ensures MonitorRun(s, a).pool.Some?
    ensures MonitorRun(s, a + b) == MonitorRun(MonitorRun(s, a), b)
    ensures MonitorRun(s, a).poolsOpened == s.poolsOpened + Reopened(a)
    ensures MonitorRun(s, a).reconnectTask == s.reconnectTask
    decreases |a|
  {
    if a == [] {
      assert a + b == b;
    } else {
      assert (a + b)[0] == a[0] && (a + b)[1..] == a[1..] + b;
      MonitorRunComplete(MonitorTick(s, a[0]), a[1..], b);
    }
  }

  /** A failed re-creation leaves the old pool referenced and the loop goes
      on with the next check. */
  lemma MonitorContinuesAfterFailedReopen(s: Slow, e: string, m: string, rest: seq<Check>)
    requires s.pool.Some?
    ensures MonitorTick(s, Lost(e, Fail(m))).pool == s.pool
    ensures MonitorRun(s, [Lost(e, Fail(m))] + rest) == MonitorRun(MonitorTick(s, Lost(e, Fail(m))), rest)
  {
    var checks := [Lost(e, Fail(m))] + rest;
    assert checks[0] == Lost(e, Fail(m)) && checks[1..] == rest;
  }

  // ---------------------------------------------------------------------------
  // close_db, get_connection, is_connected
  // ---------------------------------------------------------------------------

  function CloseDbState(s: Slow): Slow {
    var s' := s.(reconnectTask := false);
    if s.pool.Some? then s'.(pool := None, log := s.log + [InfoLine("Database connection pool closed")]) else s'
  }

  lemma CloseDbSpec(s: Slow)
    ensures var s' := CloseDbState(s);
      && s'.pool.None? && !s'.reconnectTask && s'.poolsOpened == s.poolsOpened
      && (s.pool.None? ==> s'.log == s.log)
      && MonitorRun(s', [Healthy]) == s'
  {
  }

  const NotInitialized := "Database" + " pool not initialized. Call init_db() first."
  const Disabled := "PostgreSQL" + " is disabled (USE_POSTGRES=False)"

  /** get_connection does not wait: without a pool it raises, with a message
      that tells a missing init_db from a disabled database. */
  function GetConnection(s: Slow, usePostgres: bool): Result<nat, string> {
    if s.pool.None? then Failure(if usePostgres then NotInitialized else Disabled)
    else Success(s.pool.value)
  }

  lemma GetConnectionSpec(s: Slow, usePostgres: bool)
    ensures GetConnection(s, usePostgres).Success? <==> s.pool.Some?
    ensures GetConnection(s, usePostgres).Failure? ==>
      GetConnection(s, usePostgres).error == (if usePostgres then NotInitialized else Disabled)
    ensures NotInitialized != Disabled
  {
    assert NotInitialized[0] == 'D' && Disabled[0] == 'P';
  }

  /** is_connected: false without a pool or when the probe raises; true only
      for a row holding 1. */
  function IsConnected(s: Slow, probe: Probe): bool {
    if s.pool.None? then false
    else if probe.ProbeRaises? then false
    else ProbeSaysYes(probe)
  }

  lemma IsConnectedSpec(s: Slow, probe: Probe)
    ensures IsConnected(s, probe) <==> s.pool.Some? && probe == Row(1)
  {
  }

  // ---------------------------------------------------------------------------
  // The module globals as an object
  // ---------------------------------------------------------------------------

  class Connection {
    var pool: Option<nat>
    var poolsOpened: nat
    var reconnectTask: bool
    var log: seq<LogLine>

    function Snapshot(): Slow
      reads this
    {
      Slow(pool, poolsOpened, reconnectTask, log)
    }

    constructor()
      ensures Snapshot() == Initial()
    {
      pool, poolsOpened, reconnectTask, log := None, 0, false, [];
    }

    /** init_db; returns the final `retry_count` and whether the loop broke
        out. */
    method InitDb(usePostgres: bool, attempts: seq<Attempt>) returns (retryCount: nat, connected: bool)
      modifies this
      ensures InitDbRun(old(Snapshot()), usePostgres, attempts) == Retry(Snapshot(), retryCount, connected)
    {
      if !usePostgres {
        log := log + [InfoLine("PostgreSQL is disabled (USE_POSTGRES=False)")];
        return 0, false;
      }
      retryCount, connected := 0, false;
      var used := 0;
      while used < |attempts| && !connected
        invariant used <= |attempts|
        invariant RetryLoop(Retry(Snapshot(), retryCount, connected), attempts[used..])
               == RetryLoop(Retry(old(Snapshot()), 0, false), attempts)
        decreases |attempts| - used
      {
        assert attempts[used..][1..] == attempts[used + 1..];
        retryCount, connected := Attempt(attempts[used], retryCount);
        used := used + 1;
      }
    }

    /** One pass of the body of init_db's loop. */
    method Attempt(a: Attempt, count: nat) returns (count': nat, connected: bool)
      modifies this
      ensures RetryStep(Retry(old(Snapshot()), count, false), a) == Retry(Snapshot(), count', connected)
    {
      log := log + [InfoLine("Connecting to PostgreSQL...")];
      var error: string;
      if a.PoolFails? {
        error := a.error;
      } else {
        pool := Some(poolsOpened);
        poolsOpened := poolsOpened + 1;
        if !a.probe.ProbeRaises? {
          if ProbeSaysYes(a.probe) {
            log := log + [InfoLine("PostgreSQL connection successful")];
          }
          log := log + CreateTables(a.tables).log;
          reconnectTask := true;
          return count, true;
        }
        error := a.probe.error;
      }
      count' := count + 1;
      log := log + FailureLines(count', error);
      connected := false;
    }

    method MonitorCheck(c: Check)
      modifies this
      ensures Snapshot() == MonitorTick(old(Snapshot()), c)
    {
      if c.Lost? {
        log := log + [ErrorLine("Database connection lost: " + c.error), InfoLine("Attempting to reconnect...")];
        if c.reopen.Pass? {
          pool := Some(poolsOpened);
          poolsOpened := poolsOpened + 1;
          log := log + [InfoLine("Successfully reconnected to database")];
        } else {
          log := log + [ErrorLine("Failed to reconnect: " + c.reopen.error)];
        }
      }
    }

    /** `_monitor_connection`; returns how many checks it made. */
    method MonitorConnection(checks: seq<Check>) returns (used: nat)
      modifies this
      ensures Snapshot() == MonitorRun(old(Snapshot()), checks)
      ensures used <= |checks| && (pool.None? || used == |checks|)
    {
      used := 0;
      while pool.Some? && used < |checks|
        invariant used <= |checks|
        invariant MonitorRun(Snapshot(), checks[used..]) == MonitorRun(old(Snapshot()), checks)
        decreases |checks| - used
      {
        assert checks[used..][1..] == checks[used + 1..];
        MonitorCheck(checks[used]);
        used := used + 1;
      }
    }

    method CloseDb()
      modifies this
      ensures Snapshot() == CloseDbState(old(Snapshot()))
    {
      if reconnectTask {
        reconnectTask := false;
      }
      if pool.Some? {
        pool := None;
        log := log + [InfoLine("Database connection pool closed")];
      }
    }
  }
}
