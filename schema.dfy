/** `create_tables`, which all three connection.py variants share
    (templates/api/src/backend/db/connection.py:105-136 and the identical
    bluetext-demo-v0 and project copies at lines 90-121), and the `SELECT 1`
    probe they run on a pool. The model registry, the engine and
    `create_all`/`drop_all` are steps that may fail with a message. */
module Schema {
  import opened Wrappers
  import opened Logging

  /** What each step of create_tables does when it is reached: importing the
      models (a failure is an ImportError), creating the engine, the first
      `create_all`, `drop_all`, and the second `create_all`. */
  datatype SchemaSteps = SchemaSteps(
    imports: Outcome<string>,
    engine: Outcome<string>,
    create: Outcome<string>,
    drop: Outcome<string>,
    recreate: Outcome<string>)

  datatype Call = CreateAll | DropAll

  /** The log written, the metadata calls made, and whether the tables were
      created. There is no error part: create_tables catches everything. */
  datatype TablesReport = TablesReport(log: seq<LogLine>, calls: seq<Call>, created: bool)

  const ContinueWithout := "Continuing" + " without creating tables. They may need to be created manually."

  /** The outer `except Exception` handler. */
  function Swallowed(error: string): seq<LogLine> {
    [ExceptionLine("Failed to create tables: " + error), WarningLine(ContinueWithout)]
  }

  function CreateTables(run: SchemaSteps): TablesReport {
    if run.imports.Fail? then
      TablesReport([WarningLine("Models not found: " + run.imports.error)], [], false)
    else if run.engine.Fail? then
      TablesReport(Swallowed(run.engine.error), [], false)
    else
      var start := [InfoLine("Creating database tables...")];
      if run.create.Pass? then
        TablesReport(start + [InfoLine("\U{2713} Database tables created successfully")], [CreateAll], true)
      else
        var retry := start + [ExceptionLine("Failed to create tables, attempting drop and recreate: " + run.create.error)];
        if run.drop.Fail? then
          TablesReport(retry + [ExceptionLine("Failed to drop and recreate tables: " + run.drop.error)] + Swallowed(run.drop.error),
                       [CreateAll, DropAll], false)
        else
          var dropped := retry + [WarningLine("Dropped all existing tables")];
          if run.recreate.Pass? then
            TablesReport(dropped + [InfoLine("\U{2713} Database tables recreated successfully")], [CreateAll, DropAll, CreateAll], true)
          else
            TablesReport(dropped + [ExceptionLine("Failed to drop and recreate tables: " + run.recreate.error)] + Swallowed(run.recreate.error),
                         [CreateAll, DropAll, CreateAll], false)
  }

  /** The tables exist afterwards exactly when the models loaded and
      `create_all` succeeded either the first time or after a successful
      `drop_all`; the drop is tried exactly when the first `create_all` fails,
      and at most two `create_all` calls are made. */
  lemma CreateTablesOutcome(run: SchemaSteps)
    ensures var r := CreateTables(run);
      && (r.created <==>
            run.imports.Pass? && run.engine.Pass? &&
            (run.create.Pass? || (run.drop.Pass? && run.recreate.Pass?)))
      && (DropAll in r.calls <==> run.imports.Pass? && run.engine.Pass? && run.create.Fail?)
      && |r.calls| <= 3
      && (r.calls != [] ==> r.calls[0] == CreateAll)
  {
    var r := CreateTables(run);
    if run.imports.Fail? || run.engine.Fail? {
      assert r.calls == [] && !r.created;
    } else if run.create.Pass? {
      assert r.calls == [CreateAll] && r.created;
    } else if run.drop.Fail? {
      assert r.calls == [CreateAll, DropAll] && !r.created;
    } else {
      assert r.calls == [CreateAll, DropAll, CreateAll] && r.created == run.recreate.Pass?;
    }
  }

  /** Every failure other than a missing model ends the log with the
      "continuing without tables" warning; a missing model logs only its own
      warning. */
  lemma CreateTablesLogEnd(run: SchemaSteps)
    ensures var r := CreateTables(run);
      && |r.log| > 0
      && (r.log[|r.log| - 1] == WarningLine(ContinueWithout) <==> !r.created && run.imports.Pass?)
      && (run.imports.Fail? ==> |r.log| == 1 && r.log[0].level == Warning)
  {
    var r := CreateTables(run);
    var start := [InfoLine("Creating database tables...")];
    if run.imports.Fail? {
      assert r.log == [WarningLine("Models not found: " + run.imports.error)];
      assert ("Models not found: " + run.imports.error)[0] == 'M';
      assert ContinueWithout[0] == 'C';
    } else if run.engine.Fail? {
      assert r.log == Swallowed(run.engine.error);
    } else if run.create.Pass? {
      assert r.log == start + [InfoLine("\U{2713} Database tables created successfully")];
    } else {
      var retry := start + [ExceptionLine("Failed to create tables, attempting drop and recreate: " + run.create.error)];
      var dropped := retry + [WarningLine("Dropped all existing tables")];
      if run.drop.Fail? {
        var tail := Swallowed(run.drop.error);
        assert r.log == retry + [ExceptionLine("Failed to drop and recreate tables: " + run.drop.error)] + tail;
        assert r.log[|r.log| - 1] == tail[1];
      } else if run.recreate.Pass? {
        assert r.log == dropped + [InfoLine("\U{2713} Database tables recreated successfully")];
      } else {
        var tail := Swallowed(run.recreate.error);
        assert r.log == dropped + [ExceptionLine("Failed to drop and recreate tables: " + run.recreate.error)] + tail;
        assert r.log[|r.log| - 1] == tail[1];
      }
    }
  }

  /** What the `SELECT 1` probe on a pool produces: an exception, no row, or a
      row whose first column is `value`. */
  datatype Probe = ProbeRaises(error: string) | NoRow | Row(value: int)

  /** `result and result[0] == 1`: a probe answers yes only with a row
      holding 1. */
  predicate ProbeSaysYes(p: Probe) {
    p == Row(1)
  }

  /** One pass of a connection retry loop: pool creation fails, or it succeeds
      and the probe then either raises or answers, after which create_tables
      runs. */
  datatype Attempt = PoolFails(error: string) | PoolOpens(probe: Probe, tables: SchemaSteps)

  predicate Succeeds(a: Attempt) {
    a.PoolOpens? && !a.probe.ProbeRaises?
  }
}
