/** The CRUD helpers of templates/api/src/backend/db/utils.py against one
    table: each builds its statement with the `SqlBuild` builders and applies
    it to the table as `SqlStore` defines; a statement the server refuses
    leaves the table as it was and comes back as the error. */
module SqlCrud {
  import opened Wrappers
  import opened PyValue
  import opened SqlStatement
  import opened SqlBuild
  import opened SqlStore

  /** One `(query, params)` pair of execute_transaction, by what it does. */
  datatype Op =
    | InsertOp(fields: Dict)
    | UpdateOp(id: int, updates: Dict)
    | DeleteOp(id: int)
    | Refused(error: DbError)   // a statement the server rejects

  /** One operation on the working copy: the table it leaves and whether it
      succeeded. A refused operation adds and changes no row, but an INSERT
      that clashed has drawn its sequence value all the same. */
  function ApplyOp(t: Table, op: Op): (Table, Outcome<DbError>) {
    match op
    case InsertOp(fields) =>
      var (t', r) := CreateAttempt(t, fields);
      (t', if r.Success? then Pass else Fail(r.error))
    case UpdateOp(id, updates) =>
      var r := Update(t, id, updates);
      if r.Success? then (r.value.0, Pass) else (t, Fail(r.error))
    case DeleteOp(id) => (Delete(t, id).0, Pass)
    case Refused(e) => (t, Fail(e))
  }

  /** The operations in order on one working copy, stopping at the first
      failure with the copy as that failure left it. */
  function RunAll(t: Table, ops: seq<Op>): (Table, Outcome<DbError>)
    decreases |ops|
  {
    if ops == [] then (t, Pass)
    else
      var step := ApplyOp(t, ops[0]);
      if step.1.Fail? then step else RunAll(step.0, ops[1..])
  }

  /** Running `a + b` is running `a`, then `b` on what `a` left. */
  lemma {:induction false} RunAllAppend(t: Table, a: seq<Op>, b: seq<Op>)
    ensures RunAll(t, a + b) ==
      (if RunAll(t, a).1.Fail? then RunAll(t, a) else RunAll(RunAll(t, a).0, b))
    decreases |a|
  {
    if a == [] {
      assert a + b == b;
    } else {
      assert (a + b)[1..] == a[1..] + b;
      var step := ApplyOp(t, a[0]);
      if step.1.Pass? {
        RunAllAppend(step.0, a[1..], b);
      }
    }
  }

  /** A refused statement anywhere makes the whole transaction fail. */
  lemma {:induction false} RunAllRefused(t: Table, ops: seq<Op>, i: nat)
    requires i < |ops| && ops[i].Refused?
    ensures RunAll(t, ops).1.Fail?
    decreases i
  {
    if i > 0 {
      var step := ApplyOp(t, ops[0]);
      if step.1.Pass? {
        RunAllRefused(step.0, ops[1..], i - 1);
      }
    }
  }

  /** Every operation keeps the primary key unique, up to the point where the
      transaction stops. */
  lemma {:induction false} RunAllValid(t: Table, ops: seq<Op>)
    requires Valid(t)
    ensures Valid(RunAll(t, ops).0)
    decreases |ops|
  {
    if ops != [] {
      var step := ApplyOp(t, ops[0]);
      match ops[0] {
        case InsertOp(fields) =>
          if Insert(t, fields).Success? {
            InsertValid(t, fields);
          }
        case UpdateOp(id, updates) =>
          if Update(t, id, updates).Success? {
            UpdateValid(t, id, updates);
          }
        case DeleteOp(id) => DeleteValid(t, id);
        case Refused(_) =>
      }
      if step.1.Pass? {
        RunAllValid(step.0, ops[1..]);
      }
    }
  }

  /** The sequence only moves forward, and the columns stay as they are. */
  lemma {:induction false} RunAllSequence(t: Table, ops: seq<Op>)
    ensures RunAll(t, ops).0.columns == t.columns
    ensures RunAll(t, ops).0.nextId >= t.nextId
    decreases |ops|
  {
    if ops != [] {
      var step := ApplyOp(t, ops[0]);
      match ops[0] {
        case InsertOp(fields) => CreateAttemptSpec(t, fields);
        case UpdateOp(id, updates) =>
          if Update(t, id, updates).Success? {
            UpdateKeepsSequence(t, id, updates);
          }
        case DeleteOp(id) =>
        case Refused(_) =>
      }
      if step.1.Pass? {
        RunAllSequence(step.0, ops[1..]);
      }
    }
  }

  function RowsOf(rs: seq<Record>): (rows: seq<Dict>)
    ensures |rows| == |rs|
    ensures forall i :: 0 <= i < |rs| ==> rows[i] == RowOf(rs[i])
  {
    seq(|rs|, i requires 0 <= i < |rs| => RowOf(rs[i]))
  }

  /** bulk_create's rows, one per item, with `None` for a missing column. */
  function BulkRows(items: seq<Dict>, columns: seq<string>): (rows: seq<seq<Value>>)
    ensures |rows| == |items|
    ensures forall i :: 0 <= i < |items| ==> rows[i] == RowValues(items[i], columns)
  {
    seq(|items|, i requires 0 <= i < |items| => RowValues(items[i], columns))
  }

  /** A connection's view of one table. */
  class Database {
    const name: string
    var contents: Table

    ghost predicate Valid()
      reads this
    {
      SqlStore.Valid(contents)
    }

    constructor(name: string, columns: seq<string>)
      requires "id" !in columns
      ensures this.name == name && contents == EmptyTable(columns)
      ensures Valid()
    {
      this.name := name;
      contents := EmptyTable(columns);
    }

    /** create_item: inserts every field but `id` and returns the stored row;
        a key clash still uses up the sequence value it drew. */
    method CreateItem(item: Dict) returns (stmt: Statement, r: Result<Dict, DbError>)
      requires Valid()
      modifies this
      ensures Valid()
      ensures stmt.text == InsertText(name, Keys(InsertedFields(item)), 1)
      ensures stmt.params == Values(InsertedFields(item))
      ensures var (t, res) := CreateAttempt(old(contents), InsertedFields(item));
        && contents == t
        && r == if res.Success? then Success(RowOf(res.value)) else Failure(res.error)
    {
      stmt := BuildCreateItem(name, item);
      var (t, res) := CreateAttempt(contents, InsertedFields(item));
      if res.Success? {
        InsertValid(contents, InsertedFields(item));
        r := Success(RowOf(res.value));
      } else {
        r := Failure(res.error);
      }
      contents := t;
    }

    /** get_item: the row with that key, or `None`. */
    method GetItem(itemId: int) returns (stmt: Statement, r: Option<Dict>)
      ensures stmt == SelectItem(name, itemId)
      ensures r.Some? <==> itemId in Ids(contents.records)
      ensures r.Some? ==> r.value == RowOf(SelectById(contents, itemId).value)
    {
      stmt := SelectItem(name, itemId);
      var found := SelectById(contents, itemId);
      r := if found.Some? then Some(RowOf(found.value)) else None;
    }

    /** get_items: the matching rows in the window, or the server's error. */
    method GetItems(limit: int := DefaultLimit, offset: int := DefaultOffset,
                    where: Option<Dict> := None, orderBy: Option<string> := None)
      returns (stmt: Statement, r: Result<seq<Dict>, DbError>)
      ensures stmt.text == SelectManyText(name, Keys(Filters(where)), Ordering(orderBy))
      ensures stmt.params == Values(Filters(where)) + [Int(limit), Int(offset)]
      ensures var sel := Select(contents, Filters(where), Ordering(orderBy), limit, offset);
        r == if sel.Success? then Success(RowsOf(sel.value)) else Failure(sel.error)
    {
      stmt := BuildGetItems(name, limit, offset, where, orderBy);
      var sel := Select(contents, Filters(where), Ordering(orderBy), limit, offset);
      r := if sel.Success? then Success(RowsOf(sel.value)) else Failure(sel.error);
    }

    /** update_item: the updated row, `None` when no row has the key. */
    method UpdateItem(itemId: int, updates: Dict) returns (stmt: Statement, r: Result<Option<Dict>, DbError>)
      requires Valid()
      modifies this
      ensures Valid()
      ensures stmt.text == UpdateText(name, Keys(updates))
      ensures stmt.params == Values(updates) + [Int(itemId)]
      ensures match Update(old(contents), itemId, updates)
        case Success((t, rec)) =>
          contents == t && r == Success(if rec.Some? then Some(RowOf(rec.value)) else None)
        case Failure(e) => contents == old(contents) && r == Failure(e)
    {
      stmt := BuildUpdateItem(name, itemId, updates);
      var res := Update(contents, itemId, updates);
      if res.Success? {
        UpdateValid(contents, itemId, updates);
        contents := res.value.0;
        var rec := res.value.1;
        r := Success(if rec.Some? then Some(RowOf(rec.value)) else None);
      } else {
        r := Failure(res.error);
      }
    }

    /** delete_item: whether a row was removed. */
    method DeleteItem(itemId: int) returns (stmt: Statement, deleted: bool)
      requires Valid()
      modifies this
      ensures Valid()
      ensures stmt == DeleteItemStatement(name, itemId)
      ensures deleted <==> itemId in Ids(old(contents).records)
      ensures contents == Delete(old(contents), itemId).0
    {
      stmt := DeleteItemStatement(name, itemId);
      DeleteValid(contents, itemId);
      var (t, found) := Delete(contents, itemId);
      contents := t;
      deleted := found;
    }

    /** bulk_create: nothing for no items; otherwise one statement inserting
        every item under the first item's columns. */
    method BulkCreate(items: seq<Dict>) returns (stmt: Option<Statement>, r: Result<seq<Dict>, DbError>)
      requires Valid()
      modifies this
      ensures Valid()
      ensures stmt.None? <==> |items| == 0
      ensures |items| == 0 ==> contents == old(contents) && r == Success([])
      ensures |items| > 0 ==>
        var columns := BulkColumns(items);
        && stmt.value.text == InsertText(name, columns, |items|)
        && stmt.value.params == RowMajor(items, columns)
        && var (t, res) := BulkAttempt(old(contents), columns, BulkRows(items, columns));
           && contents == t
           && r == if res.Success? then Success(RowsOf(res.value)) else Failure(res.error)
    {
      stmt := BuildBulkCreate(name, items);
      if |items| == 0 {
        r := Success([]);
        return;
      }
      var columns := BulkColumns(items);
      var rows := BulkRows(items, columns);
      var (t, res) := BulkAttempt(contents, columns, rows);
      if res.Success? {
        InsertManyValid(contents, columns, rows);
        r := Success(RowsOf(res.value));
      } else {
        r := Failure(res.error);
      }
      contents := t;
    }

    /** execute_transaction: the operations on a working copy; the copy is
        committed when all succeed. At the first failure the rows go back to
        what they were, but the sequence values the copy drew stay drawn, as
        they do under PostgreSQL's rollback. */
    method ExecuteTransaction(ops: seq<Op>) returns (r: Outcome<DbError>)
      requires Valid()
      modifies this
      ensures Valid()
      ensures var (w, o) := RunAll(old(contents), ops);
        && r == o
        && contents == if o.Pass? then w else old(contents).(nextId := w.nextId)
    {
      var work := contents;
      for i := 0 to |ops|
        invariant RunAll(contents, ops[..i]) == (work, Pass)
        invariant contents == old(contents)
      {
        var step := ApplyOp(work, ops[i]);
        assert ops[..i + 1] == ops[..i] + [ops[i]];
        RunAllAppend(contents, ops[..i], [ops[i]]);
        if step.1.Fail? {
          assert ops == ops[..i + 1] + ops[i + 1..];
          RunAllAppend(contents, ops[..i + 1], ops[i + 1..]);
          contents := contents.(nextId := step.0.nextId);
          return step.1;
        }
        work := step.0;
      }
      assert ops[..|ops|] == ops;
      RunAllValid(contents, ops);
      contents := work;
      r := Pass;
    }
  }
}
