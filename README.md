# bluetext core, modelled in Dafny

bluetext is a project template: a FastAPI backend with a PostgreSQL layer, a
Couchbase layer and a config manager that seeds Couchbase from JSON files.
This project models the parts of it that hold logic. It states what each part
promises and proves it.

- **Generic SQL CRUD layer** (`templates/api/src/backend/db/utils.py`).
  - Statements are modelled as a psycopg-like composed tree: raw fragments from
    a fixed set, identifiers, and `%s` slots. The type guarantees that names
    reach the text only as identifiers and values only as parameters.
  - The table is a sequence of rows with a unique integer key and a sequence
    counter. The counter moves on for every row an INSERT forms, including
    one that then fails on a key clash.
  - `Database` is the object the CRUD functions act on.
  - `execute_transaction` runs on a working copy that is committed or
    discarded.
- **Schema creation** (`create_tables`): the same code in all three
  `connection.py` files.
- **Two connection lifecycles.**
  - The "tight" one in `templates/api`: a one-second retry loop, warnings
    rate-limited to one per ten seconds, a blocking readiness gate, a 30-second
    monitor and a non-blocking health snapshot.
  - The "slow" one in `bluetext-demo-v0/backend`: a ten-second retry with a
    counter and counter-driven logging. The `project/backend` copy of this
    file is byte-identical, so one model serves both, and its rows cite the
    demo path.
- **The helpers** in `templates/api/src/utils/helpers.py`: `clean_dict`,
  `paginate_list`, `sanitize_string`, `chunk_list`, camelCase key
  conversion, the SQL WHERE/SET and N1QL WHERE clause builders, and
  `format_couchbase_keyspace`.
- **Couchbase `Keyspace`** (`bucket.scope.collection`), its parse/print round
  trip, and `create_keyspace`.
  - Both `couchbase_client.py` copies are identical, so their rows cite
    `templates/api/src/backend/clients/couchbase_client.py`.
  - The stubbed `CouchbaseClient` of those copies is modelled too.
- **The Couchbase client** of `templates/api/src/backend/clients/couchbase.py`.
  - Its lifecycle fields: `_cluster`, `_config` and `_initialized`.
  - Its document operations over one map per keyspace.
  - Its query text, `bulk_insert` and `health_check`.
- **The library `CouchbaseModel`**: collection-name derivation, the
  requests that `get`, `list`, `upsert`, `delete` and `initialize` make, and
  what `get` and `list` answer over the stored documents, including the
  `id` validation of `cls(**doc)`.
- **The config-manager `CouchbaseSeeder`**: filename parsing, example-file
  filtering, seed-data normalisation, per-document counting, and the per-file
  and per-directory results.
- **The pydantic models of `templates/api/src/models/base.py`**:
  `PaginationParams` validation and offset, `PaginatedResponse.create`, and the
  `CouchbaseDocument` round trip, which keeps only the fields a class
  declares.

The environment is an input to the model. This covers the outcome of
creating a pool or cluster, the `SELECT 1` probe, `create_all` and `drop_all`,
clock readings, generated uuids, query rows, file contents and write faults.
Sleeps and task scheduling are not modelled, so a blocking wait shows up as a
`Blocked` result.

Where the code and its documentation disagree, the model follows the code:
- `update_item` has no guard for an empty update. Its statement
  `UPDATE t SET WHERE id = %s` is malformed, and the model answers with a
  syntax error.
- `order_by` is wrapped as an identifier but not checked against a column
  list. A name that is not a column is refused by the server.
- `limit` and `offset` are not checked. Negative values are refused by the
  server.
- `health_check` has no "disabled" status.
- In the tight lifecycle, a failed pool re-creation ends the monitor, and
  nothing restarts the retry loop afterwards.

Files:
- `wrappers.dfy`: Option, Result and Outcome.
- `text.dfy`: the Python `str` operations used.
- `pyvalue.dfy`: JSON-shaped values and insertion-ordered dicts.
- `logging.dfy`: log lines.
- `sql_statement.dfy`, `sql_build.dfy`, `sql_store.dfy`, `sql_crud.dfy`: the
  SQL layer.
- `schema.dfy`: `create_tables`.
- `connection_tight.dfy`, `connection_slow.dfy`: the two connection
  lifecycles.
- `helpers.dfy`, `clauses.dfy`: the helpers.
- `keyspace.dfy`, `couchbase_client.dfy`: Couchbase.
- `seeder.dfy`: the seeder.
- `cb_model.dfy`: `CouchbaseModel`.
- `base_models.dfy`: the pydantic models.

## Model

| member | source | states |
|---|---|---|
| Text.SplitCount | templates/api/src/backend/clients/couchbase.py:57-58 | `split('.')` gives one more part than the string has dots |
| Text.Split | templates/api/src/backend/clients/couchbase.py:57 | `split` on a one-character separator always yields at least one part |
| Text.SplitPartsFree | templates/api/src/backend/clients/couchbase.py:57 | no part of a split contains the separator |
| Text.JoinSplit | templates/api/src/backend/clients/couchbase.py:57-67 | joining the parts of a split with the same separator gives the string back |
| Text.SplitJoin | templates/api/src/backend/clients/couchbase.py:57-67 | splitting a join of separator-free parts gives the parts back |
| Text.PySliceNonNegative | templates/api/src/utils/helpers.py:99 | Python slicing with non-negative bounds is the clamped slice, or empty once the start passes the end |
| Text.IntToStringSign | templates/lib/py/couchbase-client/src/couchbase_client/model.py:111 | `str(n)` starts with `-` exactly for negative n |
| Text.IntToStringInjective | templates/lib/py/couchbase-client/src/couchbase_client/model.py:111 | different integers have different `str` texts |
| Text.NatToStringInjective | templates/api/src/utils/helpers.py:190 | different naturals have different decimal texts |
| Text.UpperStartsWith | templates/config-manager/src/couchbase_seeder.py:225-229 | a prefix stays a prefix after `upper()` |
| Text.UpperEndsWith | templates/config-manager/src/couchbase_seeder.py:225-229 | a suffix stays a suffix after `upper()` |
| Text.Upper | templates/config-manager/src/couchbase_seeder.py:225 | `upper()` keeps the length and maps each character to its uppercase, leaving no lowercase letter |
| Text.Lower | templates/lib/py/couchbase-client/src/couchbase_client/model.py:62 | `lower()` keeps the length and maps each character to its lowercase, leaving no uppercase letter |
| Text.StripSpec | templates/api/src/utils/helpers.py:126 | `strip()` keeps one contiguous piece, cuts only whitespace on either side and leaves no whitespace at either end |
| Text.TrimStart | templates/api/src/utils/helpers.py:126 | `lstrip()` drops a whitespace prefix, leaving a suffix of the input that starts with no whitespace |
| Text.TrimEnd | templates/api/src/utils/helpers.py:126 | `rstrip()` drops a whitespace suffix, leaving a prefix of the input that ends with no whitespace |
| PyValue.Get | templates/api/src/backend/db/utils.py:263 | `d.get(k)` is absent exactly when k is not a key, and otherwise is the value stored under k |
| PyValue.Put | templates/api/src/utils/helpers.py:78 | after `d[k] = v`, k maps to v and every other key keeps its value |
| PyValue.PutKeys | templates/api/src/utils/helpers.py:78 | writing an existing key keeps the key order; a new key is appended at the end |
| PyValue.PutUnique | templates/api/src/utils/helpers.py:78 | writing a key keeps the keys unique |
| PyValue.PutAllLast | templates/api/src/utils/helpers.py:139 | after the writes, a key holds the value of the last entry written under it |
| PyValue.PutAllUntouched | templates/api/src/utils/helpers.py:139 | a key no entry writes keeps the value it had |
| PyValue.PutAllFresh | templates/api/src/utils/helpers.py:139 | writing entries with distinct keys into an empty dict gives exactly those entries, in order |
| PyValue.Without | templates/config-manager/src/couchbase_seeder.py:129 | the comprehension without `id` keeps exactly the other entries, in order, with their values |
| PyValue.WithoutUnique | templates/config-manager/src/couchbase_seeder.py:129 | removing a key keeps the keys unique |
| PyValue.WithoutAbsent | templates/api/src/models/base.py:152 | `pop('id', None)` on a dict without `id` changes nothing |
| Logging.CountLevel | templates/api/src/backend/db/connection.py:98-101 | the number of lines of one level is at most the number of lines |
| SqlStatement.Cat | templates/api/src/backend/db/utils.py:114 | concatenation adds up the slots, names and raw fragments, and ends with the second part's last fragment |
| SqlStatement.JoinSlots | templates/api/src/backend/db/utils.py:42 | `sql.SQL(', ').join` of parts with k slots each has k slots per part |
| SqlStatement.JoinNames | templates/api/src/backend/db/utils.py:41 | joining keeps every part's identifiers, in order |
| SqlStatement.JoinAvoids | templates/api/src/backend/db/utils.py:106 | joining never introduces a raw fragment other than the separator |
| SqlStatement.IdentList | templates/api/src/backend/db/utils.py:41 | `join(map(sql.Identifier, columns))` names exactly the columns, in order, and has no slot |
| SqlStatement.SlotRows | templates/api/src/backend/db/utils.py:256-257 | a VALUES list of `rows` groups of k placeholders has rows·k slots and names nothing |
| SqlStatement.InsertText | templates/api/src/backend/db/utils.py:35-43 | an INSERT names the table, then the columns, has one slot per column per row, and ends in `RETURNING *` |
| SqlStatement.Equations | templates/api/src/backend/db/utils.py:102-106 | `{} = %s` per column, joined with AND or a comma: one slot and one identifier per column, in order, with no WHERE or ORDER BY |
| SqlStatement.Equation | templates/api/src/backend/db/utils.py:104 | one `{} = %s` (also line 143): a single slot and the column as its only identifier |
| SqlStatement.SelectByIdText | templates/api/src/backend/db/utils.py:67-69 | the SELECT by id names only the table and has one slot |
| SqlStatement.SelectManyText | templates/api/src/backend/db/utils.py:96-114 | `get_items` text: filters + 2 slots; names are the table, the filter columns, then the order column; WHERE appears exactly when there are filters; ORDER BY exactly when an order column is given; ends with `LIMIT %s OFFSET %s` |
| SqlStatement.FilterPart | templates/api/src/backend/db/utils.py:101-106 | the WHERE part exists exactly when there are filters, with one slot per filter |
| SqlStatement.OrderPart | templates/api/src/backend/db/utils.py:108-109 | ORDER BY appears exactly when an order column is given, as an identifier with no slot |
| SqlStatement.Window | templates/api/src/backend/db/utils.py:111 | `LIMIT %s OFFSET %s` has two slots and names nothing |
| SqlStatement.UpdateText | templates/api/src/backend/db/utils.py:148-156 | the UPDATE names the table and then the columns, has one slot per column plus one for the id, and ends in `RETURNING *` |
| SqlStatement.DeleteText | templates/api/src/backend/db/utils.py:180-182 | the DELETE names only the table, has one slot and ends in `RETURNING id` |
| SqlBuild.BuildCreateItem | templates/api/src/backend/db/utils.py:22-43 | the loop's columns are the item's keys without `id`, in order; the values follow the same order; the slots match the parameters |
| SqlBuild.SelectItem | templates/api/src/backend/db/utils.py:66-72 | get_item's statement names the table and binds exactly the id |
| SqlBuild.DeleteItemStatement | templates/api/src/backend/db/utils.py:179-185 | delete_item's statement names the table, binds exactly the id and returns the id |
| SqlBuild.SplitEntries | templates/api/src/backend/db/utils.py:103-105 | the loop collects the keys and the values of a dict in its order |
| SqlBuild.BuildGetItems | templates/api/src/backend/db/utils.py:96-114 | parameters are the filter values in order, then limit, then offset; the slots match them; WHERE exactly for non-empty filters; ORDER BY exactly for a non-empty order column; the defaults are 100 and 0 |
| SqlBuild.BuildUpdateItem | templates/api/src/backend/db/utils.py:137-156 | parameters are the update values in order with the id last, and the slots match them |
| SqlBuild.RowValues | templates/api/src/backend/db/utils.py:262-263 | one row's values are `item.get(col)` per column, with None for a missing key |
| SqlBuild.RowMajorIndex | templates/api/src/backend/db/utils.py:259-263 | the flattened parameters hold `items[i].get(columns[j])` at position i·|columns|+j |
| SqlBuild.RowMajorLength | templates/api/src/backend/db/utils.py:259-263 | there are |items|·|columns| flattened parameters |
| SqlBuild.BulkColumns | templates/api/src/backend/db/utils.py:253 | bulk_create's columns never include `id` |
| SqlBuild.BuildBulkCreate | templates/api/src/backend/db/utils.py:246-274 | no statement exactly when there are no items; otherwise the first item's keys without `id` as columns, one placeholder group per item, and the row-major values as parameters |
| SqlStore.FirstUnknown | templates/api/src/backend/db/utils.py:104 | reports a name that is not a column, and reports nothing exactly when every name is a column |
| SqlStore.SelectById | templates/api/src/backend/db/utils.py:67-75 | the row with the key, absent exactly when no row has it |
| SqlStore.FindUnique | templates/api/src/backend/db/utils.py:67-75 | with unique keys, looking up a row's key finds that row |
| SqlStore.InsertOutcome | templates/api/src/backend/db/utils.py:35-48 | an insert fails exactly for an empty column list, an unknown column, an `id` that is not a model `Int`, or a taken key; otherwise it appends the row under the `id` it names, or else under the next key, and only the latter moves the sequence |
| SqlStore.InsertValid | templates/api/src/backend/db/utils.py:35-48 | an insert keeps the keys unique |
| SqlStore.CreateThenGet | templates/api/src/backend/db/utils.py:13-75 | the created row reads back by its key with the fields written other than `id`; the key is the named `id` or else the next key |
| SqlStore.InsertExplicitId | templates/api/src/backend/db/utils.py:211-231 | an INSERT naming a model `Int` as `id` draws no sequence value; it stores the row under that key with the other fields, or clashes when the key is taken and leaves the table as it was |
| SqlStore.InsertInvalidId | templates/api/src/backend/db/utils.py:211-231 | an INSERT naming an `id` that is not a model `Int` is refused and draws nothing; the server's cast of a string such as '5' is not modelled |
| SqlStore.InsertNamedIdExample | templates/api/src/backend/db/utils.py:211-231 | `INSERT (id, name) VALUES (5, 'x')` into an empty table stores key 5, returns `id` once, and leaves the sequence at 1 |
| SqlStore.InsertMany | templates/api/src/backend/db/utils.py:266-278 | a successful multi-row insert returns one row per input row |
| SqlStore.InsertManyShape | templates/api/src/backend/db/utils.py:266-281 | the rows are appended in input order under consecutive keys, each with its own values |
| SqlStore.InsertManyValid | templates/api/src/backend/db/utils.py:266-281 | a multi-row insert keeps the keys unique |
| SqlStore.CreateAttemptSpec | templates/api/src/backend/db/utils.py:35-48 | an INSERT that forms its row and leaves `id` to the sequence draws one value whether it succeeds or clashes; one refused for no columns or an unknown column, or one naming `id`, draws none; a failed one adds no row; success is exactly the insert's success |
| SqlStore.CreatesClash | templates/api/src/backend/db/utils.py:35-48 | while create_item keeps clashing, each call moves the next key on by one and leaves the rows alone |
| SqlStore.CreateEventuallySucceeds | templates/api/src/backend/db/utils.py:35-48 | with existing columns, one of the first |rows|+1 create_item calls in a row succeeds, so a key taken by an UPDATE never locks inserts out |
| SqlStore.ClashThenCreate | templates/api/src/backend/db/utils.py:35-48 | after an UPDATE moves row 1 onto the next key 2, create_item clashes once, the sequence moves to 3, and the next create_item succeeds under key 3 |
| SqlStore.ClashOffset | templates/api/src/backend/db/utils.py:266-278 | the offset of the first taken key in a run of keys: taken, and every key before it free |
| SqlStore.BulkAttemptSpec | templates/api/src/backend/db/utils.py:266-278 | a refused multi-row INSERT adds no row; a clash uses up the keys up to the first taken one, all free but that one; any other refusal draws nothing; success is the insert's result |
| SqlStore.Matching | templates/api/src/backend/db/utils.py:101-106 | the filtered rows are exactly the rows whose columns equal every filter value, and no more of them than stored |
| SqlStore.MatchingAppend | templates/api/src/backend/db/utils.py:101-106 | filtering keeps storage order: the matches of two runs are those of the first followed by those of the second |
| SqlStore.MatchingAt | templates/api/src/backend/db/utils.py:101-106 | the k-th match is a stored row that matches and has exactly k matching rows before it |
| SqlStore.MatchingIndexOf | templates/api/src/backend/db/utils.py:101-106 | every matching stored row is the match numbered by the matching rows before it |
| SqlStore.Window | templates/api/src/backend/db/utils.py:111 | `LIMIT n OFFSET m` keeps at most n rows, starting at row m, in order |
| SqlStore.SelectSpec | templates/api/src/backend/db/utils.py:96-120 | a successful select had non-negative limit and offset; row i is match number offset+i, and there are min(limit, matches after the offset) of them |
| SqlStore.SelectRow | templates/api/src/backend/db/utils.py:96-120 | row i of a page is the stored row that matches and has exactly offset+i matching rows before it |
| SqlStore.SelectUnfiltered | templates/api/src/backend/db/utils.py:79-80 | without filters the default window is the first `limit` rows |
| SqlStore.SelectNegative | templates/api/src/backend/db/utils.py:111-112 | a negative limit or offset is refused by the server |
| SqlStore.AssignGet | templates/api/src/backend/db/utils.py:142-150 | after the SET, an assigned column has its new value and every other column keeps its old one |
| SqlStore.UpdateMissing | templates/api/src/backend/db/utils.py:159-163 | an update of existing columns returns no row and changes nothing exactly when no row has the key |
| SqlStore.UpdateEmpty | templates/api/src/backend/db/utils.py:142-156 | with no updates the statement is malformed and fails |
| SqlStore.UpdateThenGet | templates/api/src/backend/db/utils.py:148-163 | the updated row reads back under its key with the assigned values and every other column unchanged |
| SqlStore.UpdateValid | templates/api/src/backend/db/utils.py:148-163 | an update keeps the keys unique |
| SqlStore.UpdateKeepsSequence | templates/api/src/backend/db/utils.py:148-163 | an UPDATE keeps the columns and draws nothing from the sequence |
| SqlStore.RemoveMember | templates/api/src/backend/db/utils.py:180 | after the delete, the remaining rows are exactly the rows with other keys |
| SqlStore.DeleteSpec | templates/api/src/backend/db/utils.py:180-189 | delete answers true exactly when the row existed; afterwards the key is gone, and a second delete answers false |
| SqlStore.DeleteKeepsOthers | templates/api/src/backend/db/utils.py:180-189 | a delete leaves every other key's row as it was |
| SqlStore.DeleteValid | templates/api/src/backend/db/utils.py:180-189 | a delete keeps the keys unique |
| SqlCrud.RunAllAppend | templates/api/src/backend/db/utils.py:225-226 | the operations run in sequence on one working copy and stop at the first failure |
| SqlCrud.RunAllRefused | templates/api/src/backend/db/utils.py:223-231 | one refused operation anywhere fails the whole transaction |
| SqlCrud.RunAllValid | templates/api/src/backend/db/utils.py:222-227 | every operation keeps the keys unique, whether the transaction commits or stops |
| SqlCrud.RunAllSequence | templates/api/src/backend/db/utils.py:222-229 | a transaction keeps the columns and never moves the sequence back |
| SqlCrud.RowsOf | templates/api/src/backend/db/utils.py:281 | `[model(**row) for row in results]`: one result per stored row, in order |
| SqlCrud.BulkRows | templates/api/src/backend/db/utils.py:260-263 | one value row per item, taken in column order |
| SqlCrud.Database.constructor | templates/api/src/backend/db/models.py:1-39 | a table starts empty with the model's columns |
| SqlCrud.Database.CreateItem | templates/api/src/backend/db/utils.py:13-50 | issues the INSERT built from the item; the table afterwards is the attempt's: the new row on success, the same rows on an error, and the next key moved on after a key clash |
| SqlCrud.Database.GetItem | templates/api/src/backend/db/utils.py:52-75 | returns a row exactly when one has the key, and then that row |
| SqlCrud.Database.GetItems | templates/api/src/backend/db/utils.py:77-120 | issues the get_items statement and returns the selected window, or the server's error |
| SqlCrud.Database.UpdateItem | templates/api/src/backend/db/utils.py:122-163 | issues the UPDATE built from the updates; the table afterwards is the update's result; no row when the key is absent |
| SqlCrud.Database.DeleteItem | templates/api/src/backend/db/utils.py:165-189 | answers true exactly when the key existed, and the row is gone afterwards |
| SqlCrud.Database.BulkCreate | templates/api/src/backend/db/utils.py:233-281 | no items gives no statement, `[]` and no change; otherwise one statement, and the table and result are those of the multi-row attempt, which uses up the keys drawn before a clash |
| SqlCrud.Database.ExecuteTransaction | templates/api/src/backend/db/utils.py:211-231 | commits the working copy when every operation succeeds; otherwise the rows are as before, the sequence keeps the values the copy drew, and the first error is re-raised; an insert naming `id` is stored under it and draws nothing |
| Schema.CreateTablesOutcome | templates/api/src/backend/db/connection.py:105-136 | tables exist afterwards exactly when the models loaded and `create_all` succeeded, either the first time or after a successful `drop_all`; the drop happens exactly when the first `create_all` failed; at most three calls, and the first is `create_all`; nothing propagates |
| Schema.CreateTablesLogEnd | templates/api/src/backend/db/connection.py:115-136 | every failure that is not a missing model ends with the "continuing without creating tables" warning; a missing model logs only its own warning |
| ConnectionTight.RetryStepOutcome | templates/api/src/backend/db/connection.py:70-103 | an attempt connects exactly when the pool opened and the probe did not raise; a failure stores its error text; success starts one monitor |
| ConnectionTight.FailedWarning | templates/api/src/backend/db/connection.py:93-101 | a warning is written exactly when ten seconds have passed since the last one, and only then does the timestamp move |
| ConnectionTight.SpacedInitial | templates/api/src/backend/db/connection.py:13-17 | the initial globals hold the warning-spacing invariant |
| ConnectionTight.SpacedFailed | templates/api/src/backend/db/connection.py:93-101 | a failure keeps the warnings at least ten seconds apart |
| ConnectionTight.SpacedRetryStep | templates/api/src/backend/db/connection.py:70-103 | one pass of the loop keeps the warnings at least ten seconds apart |
| ConnectionTight.SpacedRetryRun | templates/api/src/backend/db/connection.py:70-103 | however the clock moves, no two connection warnings are less than ten seconds apart |
| ConnectionTight.RetryRunConnects | templates/api/src/backend/db/connection.py:70-91 | the loop ends connected exactly when some attempt succeeded, having started exactly one monitor |
| ConnectionTight.CoherentRetryRun | templates/api/src/backend/db/connection.py:66-103 | the loop keeps `_connected` implying a pool |
| ConnectionTight.MonitorTickOutcome | templates/api/src/backend/db/connection.py:147-167 | after a check a pool is still set; `_connected` is true exactly when the probe passed or the pool was re-created; a passing check changes nothing |
| ConnectionTight.MonitorStopsAfterFailedReopen | templates/api/src/backend/db/connection.py:147-167 | a failed re-creation ends the monitor with the old pool still referenced, and no new monitor is started |
| ConnectionTight.MonitorRunHealthy | templates/api/src/backend/db/connection.py:147-154 | passing checks change nothing |
| ConnectionTight.CoherentMonitorRun | templates/api/src/backend/db/connection.py:143-167 | the monitor keeps `_connected` implying a pool |
| ConnectionTight.CloseDbSpec | templates/api/src/backend/db/connection.py:169-185 | close clears the task and the pool, and a coherent state ends disconnected; without a pool nothing else changes |
| ConnectionTight.GetConnectionSpec | templates/api/src/backend/db/connection.py:192-207 | get_connection waits exactly while not connected; in a coherent state it then always gets the current pool |
| ConnectionTight.IsConnectedSpec | templates/api/src/backend/db/connection.py:209-223 | is_connected waits exactly while not connected, and answers true exactly when there is a pool and the probe returns 1 |
| ConnectionTight.HealthCheckSpec | templates/api/src/backend/db/connection.py:225-234 | the snapshot never waits: `connected` mirrors the flag, the status is healthy or connecting, and `last_error` is present exactly while not connected |
| ConnectionTight.InitDbOnlyLogs | templates/api/src/backend/db/connection.py:53-59 | init_db writes one log line and changes nothing else |
| ConnectionTight.Connection.constructor | templates/api/src/backend/db/connection.py:13-17 | the module globals at import time |
| ConnectionTight.Connection.InitDb | templates/api/src/backend/db/connection.py:53-59 | the state afterwards is the init_db transition |
| ConnectionTight.Connection.InitConnection | templates/api/src/backend/db/connection.py:61-64 | the retry task is recorded as started |
| ConnectionTight.Connection.RetryAttempt | templates/api/src/backend/db/connection.py:71-103 | one pass of the retry loop's body |
| ConnectionTight.Connection.MarkConnected | templates/api/src/backend/db/connection.py:76-91 | the success path: probe line, create_tables, `_connected`, monitor start |
| ConnectionTight.Connection.RecordFailure | templates/api/src/backend/db/connection.py:93-103 | the failure path: error text stored and a rate-limited warning |
| ConnectionTight.Connection.ConnectionRetryLoop | templates/api/src/backend/db/connection.py:66-103 | `while not _connected`: the state afterwards is the retry run; it stops early only once connected |
| ConnectionTight.Connection.MonitorCheck | templates/api/src/backend/db/connection.py:148-167 | one 30-second check |
| ConnectionTight.Connection.MonitorConnection | templates/api/src/backend/db/connection.py:143-167 | `while _pool and _connected`: the state afterwards is the monitor run; it stops early only when monitoring ended |
| ConnectionTight.Connection.CloseDb | templates/api/src/backend/db/connection.py:169-185 | the state afterwards is the close_db transition |
| ConnectionSlow.InitDbDisabled | bluetext-demo-v0/backend/src/backend/db/connection.py:56-58 | with Postgres disabled: no pool, no task, no retry, only a log line |
| ConnectionSlow.FirstSuccess | bluetext-demo-v0/backend/src/backend/db/connection.py:61-80 | the first successful attempt: every earlier attempt failed |
| ConnectionSlow.RetryLoopOutcome | bluetext-demo-v0/backend/src/backend/db/connection.py:60-88 | the loop breaks exactly at the first success, having counted one retry per failure, and only then holds a pool and the monitor task |
| ConnectionSlow.FailureLogged | bluetext-demo-v0/backend/src/backend/db/connection.py:82-88 | a failure logs the error only on attempt 1, and a warning exactly when the count becomes a multiple of 6 |
| ConnectionSlow.ExpectedStep | bluetext-demo-v0/backend/src/backend/db/connection.py:82-88 | the expected line counts of n+1 failures are those of the first plus those of the next n |
| ConnectionSlow.FailuresLogged | bluetext-demo-v0/backend/src/backend/db/connection.py:60-88 | n failures count n retries and write exactly: one connecting line each, one error if starting from 0, and one warning per multiple of 6 passed |
| ConnectionSlow.PassLog | bluetext-demo-v0/backend/src/backend/db/connection.py:61-88 | a failed pass writes the connecting line and then its failure lines |
| ConnectionSlow.PassLogged | bluetext-demo-v0/backend/src/backend/db/connection.py:61-88 | what one failed pass adds to the log, level by level |
| ConnectionSlow.MonitorRunComplete | bluetext-demo-v0/backend/src/backend/db/connection.py:127-145 | the monitor never clears the pool, so it makes every check; it opens one pool per successful re-creation |
| ConnectionSlow.MonitorContinuesAfterFailedReopen | bluetext-demo-v0/backend/src/backend/db/connection.py:138-145 | a failed re-creation keeps the old pool and the loop goes on |
| ConnectionSlow.CloseDbSpec | bluetext-demo-v0/backend/src/backend/db/connection.py:147-162 | close clears the task and the pool, after which the monitor loop ends |
| ConnectionSlow.GetConnectionSpec | bluetext-demo-v0/backend/src/backend/db/connection.py:178-185 | get_connection succeeds exactly with a pool; without one it raises, with distinct messages for "not initialized" and "disabled" |
| ConnectionSlow.IsConnectedSpec | bluetext-demo-v0/backend/src/backend/db/connection.py:187-199 | is_connected is true exactly when there is a pool and the probe returns 1 |
| ConnectionSlow.Connection.constructor | bluetext-demo-v0/backend/src/backend/db/connection.py:12-13 | the module globals at import time |
| ConnectionSlow.Connection.InitDb | bluetext-demo-v0/backend/src/backend/db/connection.py:49-88 | the state, retry count and outcome afterwards are those of the init_db run |
| ConnectionSlow.Connection.Attempt | bluetext-demo-v0/backend/src/backend/db/connection.py:62-88 | one pass of init_db's loop body |
| ConnectionSlow.Connection.MonitorCheck | bluetext-demo-v0/backend/src/backend/db/connection.py:128-145 | one 30-second check |
| ConnectionSlow.Connection.MonitorConnection | bluetext-demo-v0/backend/src/backend/db/connection.py:123-145 | `while _pool`: the state afterwards is the monitor run |
| ConnectionSlow.Connection.CloseDb | bluetext-demo-v0/backend/src/backend/db/connection.py:147-162 | the state afterwards is the close_db transition |
| Helpers.Cleaned | templates/api/src/utils/helpers.py:60-79 | the cleaned dict is never longer than the input |
| Helpers.CleanedMember | templates/api/src/utils/helpers.py:73-78 | an entry survives exactly when it is in the input and is not removed by the None or empty-value rule |
| Helpers.CleanedKeys | templates/api/src/utils/helpers.py:73-78 | every output key is an input key |
| Helpers.CleanedAppend | templates/api/src/utils/helpers.py:73-78 | cleaning proceeds entry by entry, keeping the input order |
| Helpers.CleanedFresh | templates/api/src/utils/helpers.py:73-78 | each key kept is new to `cleaned` when it is written, so `cleaned[key] = value` appends |
| Helpers.CleanDict | templates/api/src/utils/helpers.py:60-79 | the loop computes the cleaned dict |
| Helpers.PaginateSpec | templates/api/src/utils/helpers.py:82-105 | for page ≥ 1 the items are the slice `[(page-1)·size, page·size)`; total is the length; has_next exactly when page·size < total; has_prev exactly from page 2 on |
| Helpers.PaginateIndex | templates/api/src/utils/helpers.py:94-99 | item k is at position k mod size of page k div size + 1 |
| Helpers.SanitizeSpec | templates/api/src/utils/helpers.py:115-129 | the stripped text, cut to `max_length` only when that is given and non-zero (Python slicing for a negative one); at most `max_length` long when it is positive |
| Helpers.ChunkList | templates/api/src/utils/helpers.py:161-164 | a zero size raises, a negative one yields nothing; a positive one yields non-empty chunks of at most `chunk_size`, all full but the last, whose concatenation is the input |
| Helpers.TitleFrom | templates/api/src/utils/helpers.py:136 | `title()` keeps the length |
| Helpers.TitleKeepsOthers | templates/api/src/utils/helpers.py:136 | `title()` keeps exactly the non-letter characters |
| Helpers.Titles | templates/api/src/utils/helpers.py:136 | one title-cased component per component |
| Helpers.JoinFree | templates/api/src/utils/helpers.py:136 | `''.join` of parts free of a character is free of it |
| Helpers.CamelCaseShape | templates/api/src/utils/helpers.py:134-136 | the result has no underscore and starts with the first component unchanged; a name without an underscore is unchanged |
| Helpers.CamelCaseIdempotent | templates/api/src/utils/helpers.py:134-136 | converting twice is converting once |
| Helpers.TitleLowerWord | templates/api/src/utils/helpers.py:136 | a lowercase word is title-cased by capitalising its first letter |
| Helpers.CamelCaseExample | templates/api/src/utils/helpers.py:134-136 | `user_name` becomes `userName` |
| Helpers.ConvertKeysSpec | templates/api/src/utils/helpers.py:138-143 | a dict's keys are the camel-cased input keys, each once and none with `_`; a list keeps its length and is converted item by item; other values are unchanged |
| Helpers.ConvertKeysLast | templates/api/src/utils/helpers.py:139 | each converted key holds the converted value of the last input key that converts to it |
| Helpers.ConvertKeysDistinct | templates/api/src/utils/helpers.py:139 | when no two keys convert alike, the dict keeps its length and order, entry j being the camelCase of key j with its value converted |
| Helpers.ConvertKeysCollide | templates/api/src/utils/helpers.py:139 | `{"user_name": 1, "userName": 2}` converts to the single entry `{"userName": 2}` |
| Helpers.CamelPairsAt | templates/api/src/utils/helpers.py:139 | the i-th pair written is the camelCase of the i-th key with its value converted |
| Helpers.ConvertItemsAt | templates/api/src/utils/helpers.py:141 | the i-th item is the conversion of the i-th input item |
| HelperClauses.ParamKeyInjective | templates/api/src/utils/helpers.py:190 | different positions get different parameter names (also `update_param_i` at line 216) |
| HelperClauses.SqlClausesAt | templates/api/src/utils/helpers.py:189-191 | the i-th clause is `{prefix}{column} = %(param_i)s` for the i-th column |
| HelperClauses.SqlParamsAt | templates/api/src/utils/helpers.py:189-192 | the i-th parameter maps `param_i` to the i-th value |
| HelperClauses.SqlParamsUnique | templates/api/src/utils/helpers.py:187-192 | the parameter names are unique |
| HelperClauses.SqlPlaceholderResolves | templates/api/src/utils/helpers.py:189-194 | the placeholder of the i-th clause looks up the i-th value in the parameters |
| HelperClauses.SqlParamsFresh | templates/api/src/utils/helpers.py:192 | each parameter name is new when it is written, so `params[param_key] = value` appends |
| HelperClauses.BuildClauses | templates/api/src/utils/helpers.py:182-194 | the loop computes the joined clauses and the positional parameters; empty input gives `("", {})` |
| HelperClauses.BuildWhereClause | templates/api/src/utils/helpers.py:171-194 | clauses joined with `" AND "`, parameters `param_i` |
| HelperClauses.BuildUpdateClause | templates/api/src/utils/helpers.py:197-220 | clauses joined with `", "`, parameters `update_param_i` |
| HelperClauses.ClausesEmpty | templates/api/src/utils/helpers.py:182-183 | no conditions give an empty clause and no parameters (the same for updates at lines 208-209) |
| HelperClauses.WhereClauseExample | templates/api/src/utils/helpers.py:278-279 | the documented example gives `name = %(param_0)s AND age = %(param_1)s` |
| HelperClauses.WhereParamsExample | templates/api/src/utils/helpers.py:278-279 | and its parameters are `{"param_0": "John", "param_1": 25}` |
| HelperClauses.N1qlClausesAt | templates/api/src/utils/helpers.py:245-247 | the i-th clause is `{prefix}{field} = ${field}` |
| HelperClauses.BuildN1qlWhereClause | templates/api/src/utils/helpers.py:227-250 | the loop computes the joined clauses, and the parameters are the conditions themselves, keyed by field |
| HelperClauses.N1qlPlaceholderResolves | templates/api/src/utils/helpers.py:245-250 | the i-th clause's `$field` looks up the i-th value |
| HelperClauses.FormatKeyspaceParts | templates/api/src/utils/helpers.py:253-255 | for dot-free names the keyspace splits on `.` into the three back-quoted names |
| HelperClauses.FormatKeyspaceInjective | templates/api/src/utils/helpers.py:253-255 | different dot-free triples give different keyspace strings |
| Keyspaces.FromStringSucceeds | templates/api/src/backend/clients/couchbase.py:57-63 | parsing succeeds exactly when the string has two dots, and the parts hold no dot (same in templates/api/src/backend/clients/couchbase_client.py:48-54) |
| Keyspaces.PrintParsed | templates/api/src/backend/clients/couchbase.py:57-67 | printing a parsed keyspace gives the string back |
| Keyspaces.ParsePrinted | templates/api/src/backend/clients/couchbase.py:57-67 | a keyspace of dot-free names parses back from its printed form (same in templates/api/src/backend/clients/couchbase_client.py:48-58) |
| Keyspaces.ParsePrintedNeedsDotFree | templates/api/src/backend/clients/couchbase.py:57-67 | a bucket name with a dot does not survive the round trip |
| Keyspaces.CreateKeyspace | templates/api/src/backend/clients/couchbase_client.py:385-398 | the bucket is `default` exactly when none, an empty one or `default` itself is given; otherwise it is the given one; scope and collection are passed through |
| Keyspaces.StubRunInert | templates/api/src/backend/clients/couchbase_client.py:81-369 | whatever the calls, the stub's fields never change, every data method raises the same NotImplementedError, and the health check is never true |
| CouchbaseBackend.DefaultConf | templates/api/src/backend/clients/couchbase.py:19-26 | the protocol defaults to `couchbase`, and the other fields are as given |
| CouchbaseBackend.ConnectionUrlParts | templates/api/src/backend/clients/couchbase.py:28-30 | the URL splits on `:` into the protocol, `//host` and the port's digits |
| CouchbaseBackend.ConnectionUrlExample | templates/api/src/backend/clients/couchbase.py:28-30 | a default configuration on localhost:8091 gives `couchbase://localhost:8091` |
| CouchbaseBackend.InitialCoherent | templates/api/src/backend/clients/couchbase.py:77-80 | a new client is coherent and not ready |
| CouchbaseBackend.InitializeSpec | templates/api/src/backend/clients/couchbase.py:82-93 | ready afterwards exactly when enabled, configured and connected; disabled only logs; a missing config raises ValueError; a raised error changes nothing |
| CouchbaseBackend.CloseSpec | templates/api/src/backend/clients/couchbase.py:95-100 | afterwards no cluster and not ready; a client without a cluster is left as it was; closing twice is closing once |
| CouchbaseBackend.EnsureInitializedSpec | templates/api/src/backend/clients/couchbase.py:115-120 | passes exactly when enabled, initialised and holding a cluster; "disabled" takes precedence over "not initialized" |
| CouchbaseBackend.GetCluster | templates/api/src/backend/clients/couchbase.py:122-125 | the cluster is returned exactly when ready; otherwise `_ensure_initialized`'s error |
| CouchbaseBackend.GetKeyspaceSpec | templates/api/src/backend/clients/couchbase.py:127-132 | succeeds exactly when ready; the bucket is the given one, or the configured one when none is given |
| CouchbaseBackend.EmptyBucketNames | templates/api/src/backend/clients/couchbase.py:130-132 | an empty bucket name is kept by get_keyspace (`is None`) but replaced by create_keyspace (`or`) |
| CouchbaseBackend.InsertGetSpec | templates/api/src/backend/clients/couchbase.py:141-157 | get_document is None exactly for an absent key; insert stores under the given or generated key, returns it, and fails exactly when it is taken; a client that is not ready raises and changes nothing |
| CouchbaseBackend.UpdateSpec | templates/api/src/backend/clients/couchbase.py:159-166 | false exactly for an absent key, writing nothing; otherwise the document is replaced; other keys and keyspaces are untouched |
| CouchbaseBackend.UpsertSpec | templates/api/src/backend/clients/couchbase.py:168-172 | afterwards the key holds the document, whether or not it existed; other keys are untouched |
| CouchbaseBackend.DeleteSpec | templates/api/src/backend/clients/couchbase.py:174-181 | false exactly for an absent key; afterwards the key is absent and a second delete answers false |
| CouchbaseBackend.QueryDocuments | templates/api/src/backend/clients/couchbase.py:183-191 | the rows come back in order exactly when the client is ready |
| CouchbaseBackend.FromFormatted | templates/api/src/backend/clients/couchbase.py:196 | the FROM target (also line 203) is the back-quoted keyspace of `format_couchbase_keyspace` |
| CouchbaseBackend.ListQuerySpec | templates/api/src/backend/clients/couchbase.py:193-199 | ` LIMIT n` is appended exactly when a limit is given |
| CouchbaseBackend.CountDocuments | templates/api/src/backend/clients/couchbase.py:201-205 | 0 for no rows; otherwise the first row's `count`, and a KeyError without one |
| CouchbaseBackend.InsertAllSucceeds | templates/api/src/backend/clients/couchbase.py:214-216 | the inserts all succeed exactly when the keys are distinct and none is already present |
| CouchbaseBackend.InsertAllFrame | templates/api/src/backend/clients/couchbase.py:214-216 | keys not in the run are untouched, and a run that stops does so at one of its own keys |
| CouchbaseBackend.InsertAllWrites | templates/api/src/backend/clients/couchbase.py:214-216 | after a complete run each key holds its document |
| CouchbaseBackend.BulkInsertSpec | templates/api/src/backend/clients/couchbase.py:207-218 | a length mismatch raises before any write; without keys one is generated per document; success returns the keys in order, each holding its document |
| CouchbaseBackend.HealthCheckSpec | templates/api/src/backend/clients/couchbase.py:220-232 | healthy exactly when ready and the ping answers; a failed check logs one error line; nothing else changes |
| CouchbaseBackend.Client.constructor | templates/api/src/backend/clients/couchbase.py:77-80 | no cluster, the given config, not initialised |
| CouchbaseBackend.Client.Initialize | templates/api/src/backend/clients/couchbase.py:82-93 | fields and result afterwards are the initialize transition |
| CouchbaseBackend.Client.Close | templates/api/src/backend/clients/couchbase.py:95-100 | fields afterwards are the close transition |
| CouchbaseBackend.Client.InsertDocument | templates/api/src/backend/clients/couchbase.py:141-148 | the collection and result after insert_document |
| CouchbaseBackend.Client.UpdateDocument | templates/api/src/backend/clients/couchbase.py:159-166 | the collection and result after update_document |
| CouchbaseBackend.Client.UpsertDocument | templates/api/src/backend/clients/couchbase.py:168-172 | the collection and result after upsert_document |
| CouchbaseBackend.Client.DeleteDocument | templates/api/src/backend/clients/couchbase.py:174-181 | the collection and result after delete_document |
| CouchbaseBackend.Client.BulkInsert | templates/api/src/backend/clients/couchbase.py:207-218 | the pairwise insert loop ends in the bulk_insert state and result |
| CouchbaseBackend.Client.HealthCheck | templates/api/src/backend/clients/couchbase.py:220-232 | the log and answer after health_check |
| Seeder.ParseFilenameSpec | templates/config-manager/src/couchbase_seeder.py:33-57 | a name parses exactly when it ends in `.json` and the rest has two dots; the three dot-free names, rejoined, give the name back |
| Seeder.ParseFilenameRoundTrip | templates/config-manager/src/couchbase_seeder.py:42-57 | `b.s.c.json` parses to (b, s, c) for dot-free names |
| Seeder.ParseFilenameExample | templates/config-manager/src/couchbase_seeder.py:37-38 | `main.api.users.json` gives main, api, users |
| Seeder.IsExampleFileIgnoresCase | templates/config-manager/src/couchbase_seeder.py:225-230 | the test gives the same answer for a name's lowercase and uppercase forms |
| Seeder.IsExampleFileCases | templates/config-manager/src/couchbase_seeder.py:225-230 | names starting with `example` or `_`, or ending in `.example.json`, are examples in any case |
| Seeder.IsExampleFileExample | templates/config-manager/src/couchbase_seeder.py:216-230 | an ordinary seed file name is not an example |
| Seeder.LoadSeedData | templates/config-manager/src/couchbase_seeder.py:72-82 | an object becomes a one-element list, a list passes through, and anything else raises ValueError |
| Seeder.SeedOneSpec | templates/config-manager/src/couchbase_seeder.py:122-155 | no id: failed and nothing written; a written document is stored under its id without the `id` entry; upsert counts it as updated; insert-only skips exactly an existing key |
| Seeder.SeedOneOutcome | templates/config-manager/src/couchbase_seeder.py:132-155 | upsert never counts inserted or skipped, insert-only never updated |
| Seeder.SeedOneKeeps | templates/config-manager/src/couchbase_seeder.py:139-147 | an insert-only write never replaces a present document |
| Seeder.SeedRunCounts | templates/config-manager/src/couchbase_seeder.py:115-157 | every document moves exactly one counter, so the counts sum to the number of documents |
| Seeder.BadIdBeforeSpec | templates/config-manager/src/couchbase_seeder.py:122-129 | the run met an entry whose `id` lookup raises exactly when one is among the entries so far |
| Seeder.SeedRunRaises | templates/config-manager/src/couchbase_seeder.py:122-129 | seed_collection raises exactly when an entry is None, a bool or an int, a string containing "id", or a list containing "id"; a string or list without "id" counts as failed |
| Seeder.SeedRunRaisesBefore | templates/config-manager/src/couchbase_seeder.py:122-129 | the first n passes raise exactly when one of the first n entries is None, a bool, an int, or a string or list containing "id" |
| Seeder.SeedNextRaises | templates/config-manager/src/couchbase_seeder.py:122-129 | one more entry raises exactly when the run had already raised or the entry is None, a bool, an int, or a string or list containing "id" |
| Seeder.SeedRunKeeps | templates/config-manager/src/couchbase_seeder.py:139-147 | insert-only seeding leaves every existing document in place, unchanged |
| Seeder.SeedRunNext | templates/config-manager/src/couchbase_seeder.py:122-155 | one more pass of the loop, starting from the counts so far |
| Seeder.SeedRunStaysFailed | templates/config-manager/src/couchbase_seeder.py:122-129 | once the loop has raised, later entries change nothing |
| Seeder.SeedDocuments | templates/config-manager/src/couchbase_seeder.py:115-157 | the loop computes the seeding run |
| Seeder.SeedFileOutcomeSpec | templates/config-manager/src/couchbase_seeder.py:159-214 | a file succeeds exactly when its name parses, its content loads, the cluster connects and no document failed; a name that does not parse touches nothing; other collections are untouched |
| Seeder.SeedFiles | templates/config-manager/src/couchbase_seeder.py:258 | the files kept are never example files |
| Seeder.SeedFilesCount | templates/config-manager/src/couchbase_seeder.py:258-259 | as many files are kept as there are non-example names |
| Seeder.SeedFilesSnoc | templates/config-manager/src/couchbase_seeder.py:258 | one more file is kept exactly when it is not an example |
| Seeder.SeedFilesMultiset | templates/config-manager/src/couchbase_seeder.py:258 | every non-example file is kept as often as it occurs in the glob, and no example file is kept |
| Seeder.SeedFilesOrder | templates/config-manager/src/couchbase_seeder.py:258-259 | the kept files are the files at the kept positions, which strictly increase, so they are processed in glob order |
| Seeder.SeedFilesCover | templates/config-manager/src/couchbase_seeder.py:258 | every position holding a non-example file is a kept position |
| Seeder.DirRunCounts | templates/config-manager/src/couchbase_seeder.py:274-280 | every file processed counts once as succeeded or failed |
| Seeder.DirRunNext | templates/config-manager/src/couchbase_seeder.py:274-280 | one more file, from the counts so far |
| Seeder.DirectoryOutcomeSpec | templates/config-manager/src/couchbase_seeder.py:232-284 | processed = succeeded + failed = the number of non-example files; without a directory, files or non-example files, every count is 0 and nothing is written |
| Seeder.CouchbaseSeeder.constructor | templates/config-manager/src/couchbase_seeder.py:19-25 | environment and controller as given |
| Seeder.CouchbaseSeeder.SeedCollection | templates/config-manager/src/couchbase_seeder.py:91-157 | a controller exists afterwards; a failed connection raises and writes nothing; otherwise the collection and counts are those of the seeding run |
| Seeder.CouchbaseSeeder.ProcessSeedFile | templates/config-manager/src/couchbase_seeder.py:159-214 | the cluster and answer are those of the file outcome |
| Seeder.CouchbaseSeeder.ProcessSeedsDirectory | templates/config-manager/src/couchbase_seeder.py:232-284 | the directory loop ends in the directory outcome |
| CouchbaseModels.SplitWords | templates/lib/py/couchbase-client/src/couchbase_client/model.py:61 | the substitution never shortens the name |
| CouchbaseModels.SplitWordsInserts | templates/lib/py/couchbase-client/src/couchbase_client/model.py:61 | `re.sub` inserts only underscores: without them the text is unchanged |
| CouchbaseModels.SplitWordsSeparates | templates/lib/py/couchbase-client/src/couchbase_client/model.py:61 | afterwards no lowercase letter or digit is directly followed by an uppercase letter |
| CouchbaseModels.SplitWordsHead | templates/lib/py/couchbase-client/src/couchbase_client/model.py:61 | the first character is kept |
| CouchbaseModels.SplitWordsPrefix | templates/lib/py/couchbase-client/src/couchbase_client/model.py:61 | a prefix with no inner uppercase and no pair at the seam passes through unchanged |
| CouchbaseModels.CollectionNameSpec | templates/lib/py/couchbase-client/src/couchbase_client/model.py:42-68 | an explicit name is used as it is; a derived one is non-empty, has no uppercase letter and ends in `s` |
| CouchbaseModels.CollectionNameOfModel | templates/lib/py/couchbase-client/src/couchbase_client/model.py:55-68 | `<Base>Model` whose lowered words do not end in `s` is named by them plus `s` |
| CouchbaseModels.CollectionNameUser | templates/lib/py/couchbase-client/src/couchbase_client/model.py:47 | `UserModel` gives `users` |
| CouchbaseModels.CollectionNameProduct | templates/lib/py/couchbase-client/src/couchbase_client/model.py:48 | `ProductModel` gives `products` |
| CouchbaseModels.CollectionNameOrderItem | templates/lib/py/couchbase-client/src/couchbase_client/model.py:49 | `OrderItemModel` gives `order_items` |
| CouchbaseModels.InitializeRequest | templates/lib/py/couchbase-client/src/couchbase_client/model.py:80-92 | initialize fetches the keyspace `get_keyspace` builds from the collection name, `_default` and the configured bucket, and addresses no document |
| CouchbaseModels.InitializeSameCollection | templates/lib/py/couchbase-client/src/couchbase_client/model.py:80-111 | when `get_keyspace` fills in `_default` and the configured bucket, initialize prepares the collection that get addresses |
| CouchbaseModels.GetRequest | templates/lib/py/couchbase-client/src/couchbase_client/model.py:95-111 | get addresses the model's collection under `str(id)` |
| CouchbaseModels.IdValue | templates/lib/py/couchbase-client/src/couchbase_client/model.py:166 | a UUID or string id dumps as text, an int id as a number |
| CouchbaseModels.Dump | templates/lib/py/couchbase-client/src/couchbase_client/model.py:39-166 | `model_dump` holds the id under `id` and every other field as the instance has it |
| CouchbaseModels.UpsertRequest | templates/lib/py/couchbase-client/src/couchbase_client/model.py:150-167 | upsert writes the dump to the model's collection under `str(doc.id)` |
| CouchbaseModels.DeleteRequest | templates/lib/py/couchbase-client/src/couchbase_client/model.py:170-183 | delete addresses the model's collection under `str(id)` |
| CouchbaseModels.SameDocument | templates/lib/py/couchbase-client/src/couchbase_client/model.py:95-183 | get, upsert and delete of one id address one document; different integer ids address different documents |
| CouchbaseModels.KeyTextIntInjective | templates/lib/py/couchbase-client/src/couchbase_client/model.py:111 | different integer ids give different keys |
| CouchbaseModels.Apply | templates/lib/py/couchbase-client/src/couchbase_client/model.py:163-183 | an upsert stores its document under its key, a delete removes the key, and every other document is unchanged |
| CouchbaseModels.Instantiate | templates/lib/py/couchbase-client/src/couchbase_client/model.py:39-115 | `cls(**doc)` succeeds exactly when the document has an `id` that is text, a number or a boolean; a document without `id` raises the missing-field error |
| CouchbaseModels.Get | templates/lib/py/couchbase-client/src/couchbase_client/model.py:108-115 | None exactly when nothing is stored under `str(id)`; otherwise the instance of the stored document; it fails exactly when that document does not validate, with validation's error |
| CouchbaseModels.GetAfterUpsert | templates/lib/py/couchbase-client/src/couchbase_client/model.py:95-167 | get after upsert of an instance answers its dump |
| CouchbaseModels.GetAfterDelete | templates/lib/py/couchbase-client/src/couchbase_client/model.py:95-183 | get after delete of an id answers None |
| CouchbaseModels.OtherIntId | templates/lib/py/couchbase-client/src/couchbase_client/model.py:95-183 | an upsert or delete of one int id leaves get of any other int id unchanged |
| CouchbaseModels.TextAndIntShareKey | templates/lib/py/couchbase-client/src/couchbase_client/model.py:111-166 | the string id "7" reads the document the int id 7 wrote, because both keys are `str(id)` |
| CouchbaseModels.GetSeededDocument | templates/lib/py/couchbase-client/src/couchbase_client/model.py:111-115 | a document the seeder stored has no `id` entry, so get of it raises a validation error |
| CouchbaseModels.ListQueryPage | templates/lib/py/couchbase-client/src/couchbase_client/model.py:140-144 | the statement's last line is `LIMIT limit OFFSET offset` |
| CouchbaseModels.ListQueryDefaults | templates/lib/py/couchbase-client/src/couchbase_client/model.py:121-122 | by default it asks for 100 documents from offset 0 |
| CouchbaseModels.ListRequest | templates/lib/py/couchbase-client/src/couchbase_client/model.py:137-146 | list issues one query that ends with its page clause |
| CouchbaseModels.List | templates/lib/py/couchbase-client/src/couchbase_client/model.py:146-147 | a successful list returns one instance per row, in query order |
| CouchbaseModels.ListSpec | templates/lib/py/couchbase-client/src/couchbase_client/model.py:146-147 | list succeeds exactly when every row validates; otherwise it raises the error of the first row that does not |
| BaseModels.NewPaginationParams | templates/api/src/models/base.py:34-37 | valid exactly when page ≥ 1 and 1 ≤ page_size ≤ 100; otherwise the errors name exactly the failing fields |
| BaseModels.Offset | templates/api/src/models/base.py:39-42 | the offset is non-negative, a multiple of page_size that counts the earlier pages, and 0 exactly on page 1 |
| BaseModels.OffsetNext | templates/api/src/models/base.py:39-42 | the next page starts page_size later |
| BaseModels.OffsetInjective | templates/api/src/models/base.py:39-42 | at one page_size, different pages have different offsets |
| BaseModels.Create | templates/api/src/models/base.py:54-64 | items, total, page and page_size are copied |
| BaseModels.CreateFlags | templates/api/src/models/base.py:62-63 | has_next exactly when the page ends before total; has_prev exactly when the offset is positive |
| BaseModels.CreateAgreesWithPaginate | templates/api/src/models/base.py:54-64 | the response over a `paginate_list` page carries the same flags, page and size as `paginate_list` |
| BaseModels.DeclaredOnly | templates/api/src/models/base.py:140-147 | pydantic's default `extra='ignore'`: exactly the entries whose keys the class declares, in order |
| BaseModels.FromCouchbaseResult | templates/api/src/models/base.py:144-147 | `cls(id=key, **content)` succeeds exactly when the content has no `id` and a string `document_type`; the instance holds `id == key` only when the class declares `id`, and every other field is the content's when declared and absent otherwise |
| BaseModels.ToCouchbaseDocument | templates/api/src/models/base.py:149-153 | the dumped fields with `id` removed and nothing else changed |
| BaseModels.DocumentKeepsDeclared | templates/api/src/models/base.py:140-153 | reading a document and storing it again keeps exactly the declared fields of the content |
| BaseModels.DocumentRoundTrip | templates/api/src/models/base.py:144-153 | storing an instance read from a document gives the document back when the class declares every key of it |
| BaseModels.BaseDocumentDropsKey | templates/api/src/models/base.py:140-153 | `CouchbaseDocument` itself keeps neither the key nor an undeclared `name`: the round trip of `{"document_type": "t", "name": "n"}` gives `{"document_type": "t"}` |
| BaseModels.ResultRoundTrip | templates/api/src/models/base.py:144-153 | reading back a stored dump of declared fields under its id gives every field back, the id included |

## Left out

- The psycopg, psycopg_pool, SQLModel and Couchbase SDK internals are not
  modelled.
  - `sql.Identifier` is an opaque identifier, and its quoting and escaping
    are not modelled.
  - Pool sizes and lifetimes are only constructor arguments.
  - `create_pool`, `_create_cluster`, `create_all`, `drop_all`, `ping` and
    `connect_with_retry` are outcomes given to the model as inputs.
- asyncio tasks, sleeps, cancellation and the polling wait in
  `_ensure_connected` are not modelled. A wait appears as `Blocked`, and
  interleavings of the background loops with callers are not modelled,
  because their point is concurrency.
- `execute_query` (templates/api/src/backend/db/utils.py:191-209) is left out:
  it passes arbitrary SQL text to the server, so the model has nothing of its
  own to state. Transactions are therefore modelled over insert, update and
  delete operations, plus statements the server refuses.
- `get_items` with `order_by` is left out: rows come back in storage order,
  because the server's sort is not modelled.
- A database error while a CRUD call holds a connection is modelled only as
  the server refusing the statement. Pool failures during a call are left
  out.
- Column types are not modelled: values are stored and compared as given.
  The server's casts (a string such as '5' into the integer key) and its
  type errors (comparing a text column with an integer) are not.
  - SqlStore.InsertInvalidId and SqlStore.InsertOutcome: an `id` that is
    not a model `Int` is refused, where the server would cast a string
    such as '5' and store key 5. SqlStore.Update refuses it the same way.
  - SqlStore.Matching: a filter value of another type than its column is
    no match, where the server raises `operator does not exist`.
- SqlStore.InsertMany: requires a column list without `id`, because
  bulk_create always drops it (templates/api/src/backend/db/utils.py:253); a
  multi-row INSERT naming `id` is not modelled.
- A column named twice in one INSERT is not refused: the fields of an insert
  are a dict, so its columns are distinct.
- Sequence values are never given back. An INSERT that formed its rows keeps
  the values it drew even when it fails on a key clash, and a rolled-back
  transaction keeps the values its working copy drew. PostgreSQL's
  `nextval` behaves the same way.
- `get_conn_str`, `get_sqlalchemy_url` and `get_pool` are left out: they read
  configuration or return a global.
- The monitor's closing of the old pool is not modelled: a pool is only a
  number, so the model records nothing about closing one.
- `generate_uuid`, `generate_secure_token`, `hash_password`,
  `verify_password`, `format_datetime`, `parse_datetime`,
  `get_current_timestamp` and `add_days` are left out: they are randomness,
  hashing and datetime library calls.
- `validate_email` and `convert_keys_to_snake_case` are left out: they rest
  on the regex engine. The single `re.sub` in `_get_collection_name` is
  modelled by hand.
- `str.title`, `upper`, `lower` and `strip` are modelled for ASCII only.
- Helpers.CleanDict: requires unique keys, which every Python dict has.
- HelperClauses.BuildN1qlWhereClause: requires unique keys, which every
  Python dict has.
- Helpers.ChunkList: returns the whole list of chunks. The generator's
  laziness is not modelled.
- The Couchbase SDK's "bucket, scope or collection does not exist" errors are
  not modelled: a missing collection is an empty one. Auto-creation in
  `get_collection` is likewise not modelled.
- `uuid4`, query rows and file contents are inputs to the model.
  `QueryOptions(**parameters)` is not modelled.
- The client used by the library `CouchbaseModel` is not part of this model.
  Its `get_keyspace` and the rows `query_documents` answers are inputs. Its
  documents are a map by keyspace and key: `upsert_document` writes it,
  `delete_document` removes from it, and `get_document` reads it.
- CouchbaseModels.Instantiate: checks only the base class's `id` field. The
  fields of subclasses and pydantic's coercions are not modelled, and the
  instance is represented by the document it was built from.
- CouchbaseModels.List: the N1QL engine that builds the rows of
  `SELECT META().id as id, c.*` is not modelled, so the rows are inputs.
- pydantic validation is modelled only as far as `CouchbaseDocument` needs:
  the duplicate `id` keyword, a string `document_type`, and the default
  `extra='ignore'`, which drops every keyword the class does not declare. A
  class is given by the names of its fields.
  - BaseModels.FromCouchbaseResult: the types of subclass fields are not
    validated, a declared field missing from the content is not filled with
    its default, and the instance keeps the content's order where
    `model_dump` uses declaration order.
  - `cls(**row)` in the library `CouchbaseModel` keeps the row's entries.
  - `model_dump` is an input.
- The seeder's debug and info log lines are not modelled. Its error lines are
  only counted as outcomes.
- `json.load` and the filesystem (`glob`, `exists`) are inputs to the model.
  A parsed object is taken to have unique keys, as every Python dict does,
  so `Seeder.DocId` reading the first `id` entry reads the only one. JSON
  text that repeats a key, where `json.load` keeps the last value, is not
  modelled.
- The seeder's controller is modelled only as a flag, set once the seeder
  creates it.
- The two `postgres_client.py` copies and `project/api/src/backend/couchbase_client.py`
  are not part of this model.
- temporal, the workflows and all routing and configuration files are not
  part of this model.
