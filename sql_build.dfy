/** The statement builders of templates/api/src/backend/db/utils.py: the
    loops that collect column names and parameter values for create_item,
    get_items, update_item and bulk_create, and the single-expression
    statements of get_item and delete_item. */
module SqlBuild {
  import opened Wrappers
  import opened PyValue
  import opened SqlStatement

  const DefaultLimit: int := 100
  const DefaultOffset: int := 0

  /** The entries create_item writes: every field except `id`. */
  function InsertedFields(item: Dict): Dict {
    Without(item, "id")
  }

  /** create_item's statement (db/utils.py:28-43): one slot per column, the
      columns and values in field order, `id` never among them. */
  method BuildCreateItem(table: string, item: Dict) returns (stmt: Statement)
    ensures stmt.text == InsertText(table, Keys(InsertedFields(item)), 1)
    ensures stmt.params == Values(InsertedFields(item))
    ensures Bound(stmt)
    ensures "id" !in Keys(InsertedFields(item))
  {
    var columns: seq<string> := [];
    var values: seq<Value> := [];
    for i := 0 to |item|
      invariant columns == Keys(Without(item[..i], "id"))
      invariant values == Values(Without(item[..i], "id"))
    {
      var (field, value) := item[i];
      assert item[..i + 1] == item[..i] + [item[i]];
      WithoutAppend(item[..i], [item[i]], "id");
      KeysAppend(Without(item[..i], "id"), Without([item[i]], "id"));
      if field != "id" {
        columns := columns + [field];
        values := values + [value];
      }
    }
    assert item[..|item|] == item;
    stmt := Statement(InsertText(table, columns, 1), values);
  }

  /** get_item's statement (db/utils.py:67-72). */
  function SelectItem(table: string, itemId: int): (stmt: Statement)
    ensures Bound(stmt) && stmt.params == [Int(itemId)]
    ensures Names(stmt.text) == [table]
  {
    Statement(SelectByIdText(table), [Int(itemId)])
  }

  /** delete_item's statement (db/utils.py:180-185). */
  function DeleteItemStatement(table: string, itemId: int): (stmt: Statement)
    ensures Bound(stmt) && stmt.params == [Int(itemId)]
    ensures Names(stmt.text) == [table] && Last(stmt.text) == Some(ReturningId)
  {
    Statement(DeleteText(table), [Int(itemId)])
  }

  /** `if where:` — a missing or empty filter adds no conditions. */
  function Filters(where: Option<Dict>): Dict {
    if where.Some? then where.value else []
  }

  /** `if order_by:` — a missing or empty column name adds no ordering. */
  function Ordering(orderBy: Option<string>): Option<string> {
    if orderBy.Some? && orderBy.value != "" then orderBy else None
  }

  /** The loop over `dict.items()` shared by get_items and update_item: the
      column names in entry order, and beside them the values to bind. */
  method SplitEntries(d: Dict) returns (fields: seq<string>, params: seq<Value>)
    ensures fields == Keys(d) && params == Values(d)
  {
    fields, params := [], [];
    for i := 0 to |d|
      invariant fields == Keys(d[..i]) && params == Values(d[..i])
    {
      assert d[..i + 1] == d[..i] + [d[i]];
      KeysAppend(d[..i], [d[i]]);
      fields := fields + [d[i].0];
      params := params + [d[i].1];
    }
    assert d[..|d|] == d;
  }

  /** get_items' statement (db/utils.py:98-114): the filter values in filter
      order, then `limit`, then `offset`; a WHERE clause exactly when there
      are filters; ORDER BY exactly when an ordering column is given; and the
      text always ends with `LIMIT %s OFFSET %s`. */
  method BuildGetItems(table: string, limit: int := DefaultLimit, offset: int := DefaultOffset,
                       where: Option<Dict> := None, orderBy: Option<string> := None)
    returns (stmt: Statement)
    ensures stmt.text == SelectManyText(table, Keys(Filters(where)), Ordering(orderBy))
    ensures stmt.params == Values(Filters(where)) + [Int(limit), Int(offset)]
    ensures Bound(stmt)
    ensures Where in Fragments(stmt.text) <==> |Filters(where)| > 0
    ensures OrderBy in Fragments(stmt.text) <==> (orderBy.Some? && orderBy.value != "")
  {
    var fields: seq<string> := [];
    var params: seq<Value> := [];
    if where.Some? && |where.value| > 0 {
      fields, params := SplitEntries(where.value);
    }
    params := params + [Int(limit), Int(offset)];
    stmt := Statement(SelectManyText(table, fields, Ordering(orderBy)), params);
  }

  /** update_item's statement (db/utils.py:138-156): the update values in map
      order and then the item id as the last parameter. No guard is applied
      to an empty update map: the SET list is then empty. */
  method BuildUpdateItem(table: string, itemId: int, updates: Dict) returns (stmt: Statement)
    ensures stmt.text == UpdateText(table, Keys(updates))
    ensures stmt.params == Values(updates) + [Int(itemId)]
    ensures Bound(stmt)
    ensures stmt.params[|stmt.params| - 1] == Int(itemId)
  {
    var fields, params := SplitEntries(updates);
    params := params + [Int(itemId)];
    stmt := Statement(UpdateText(table, fields), params);
  }

  /** The columns of bulk_create: the first item's keys except `id`. */
  function BulkColumns(items: seq<Dict>): (cs: seq<string>)
    requires |items| > 0
    ensures "id" !in cs
  {
    Keys(Without(items[0], "id"))
  }

  /** One item's values for the given columns, `None` where a key is missing. */
  function RowValues(item: Dict, columns: seq<string>): (vs: seq<Value>)
    ensures |vs| == |columns|
    ensures forall j :: 0 <= j < |columns| ==> vs[j] == GetOrNull(item, columns[j])
  {
    seq(|columns|, j requires 0 <= j < |columns| => GetOrNull(item, columns[j]))
  }

  /** All items' values, row after row. */
  function RowMajor(items: seq<Dict>, columns: seq<string>): seq<Value>
    decreases |items|
  {
    if items == [] then [] else RowValues(items[0], columns) + RowMajor(items[1..], columns)
  }

  lemma {:induction false} RowMajorAppend(items: seq<Dict>, item: Dict, columns: seq<string>)
    ensures RowMajor(items + [item], columns) == RowMajor(items, columns) + RowValues(item, columns)
    decreases |items|
  {
    if items == [] {
      assert items + [item] == [item];
    } else {
      assert (items + [item])[1..] == items[1..] + [item];
      RowMajorAppend(items[1..], item, columns);
    }
  }

  /** The value of item `i`, column `j` sits at position `i * |columns| + j`. */
  lemma RowMajorIndex(items: seq<Dict>, columns: seq<string>, i: nat, j: nat)
    requires i < |items| && j < |columns|
    ensures |RowMajor(items, columns)| == |items| * |columns|
    ensures i * |columns| + j < |RowMajor(items, columns)|
    ensures RowMajor(items, columns)[i * |columns| + j] == GetOrNull(items[i], columns[j])
  {
    RowMajorLength(items, columns);
    RowMajorAt(items, columns, i, j);
    RowStartMul(i, |columns|);
  }

  /** Where row `i` starts when every row has `k` cells. */
  function RowStart(i: nat, k: nat): nat {
    if i == 0 then 0 else RowStart(i - 1, k) + k
  }

  lemma {:induction false} RowStartMul(i: nat, k: nat)
    ensures RowStart(i, k) == i * k
  {
    if i > 0 {
      RowStartMul(i - 1, k);
      MulSucc(i, k);
    }
  }

  /** Cell `j` of row `i` of the flattened values. */
  lemma {:induction false} RowMajorAt(items: seq<Dict>, columns: seq<string>, i: nat, j: nat)
    requires i < |items| && j < |columns|
    ensures RowStart(i, |columns|) + j < |RowMajor(items, columns)|
    ensures RowMajor(items, columns)[RowStart(i, |columns|) + j] == RowValues(items[i], columns)[j]
    decreases i
  {
    var head := RowValues(items[0], columns);
    var tail := RowMajor(items[1..], columns);
    assert RowMajor(items, columns) == head + tail;
    if i > 0 {
      RowMajorAt(items[1..], columns, i - 1, j);
      assert items[1..][i - 1] == items[i];
      assert RowStart(i, |columns|) + j == |head| + (RowStart(i - 1, |columns|) + j);
    }
  }

  lemma {:induction false} RowMajorLength(items: seq<Dict>, columns: seq<string>)
    ensures |RowMajor(items, columns)| == |items| * |columns|
    decreases |items|
  {
    if items != [] {
      RowMajorLength(items[1..], columns);
      assert |RowMajor(items, columns)| == |RowValues(items[0], columns)| + |RowMajor(items[1..], columns)|;
      MulSucc(|items|, |columns|);
    }
  }

  /** The inner loop of bulk_create: `item.get(col)` for each column. */
  method ReadRow(item: Dict, columns: seq<string>) returns (row: seq<Value>)
    ensures row == RowValues(item, columns)
  {
    row := [];
    for j := 0 to |columns|
      invariant |row| == j
      invariant forall c :: 0 <= c < j ==> row[c] == GetOrNull(item, columns[c])
    {
      row := row + [GetOrNull(item, columns[j])];
    }
  }

  /** bulk_create's statement (db/utils.py:246-274): nothing for an empty
      list; otherwise one row of slots per item, one slot per column, and the
      values flattened row-major with `None` for missing keys. */
  method BuildBulkCreate(table: string, items: seq<Dict>) returns (r: Option<Statement>)
    ensures r.None? <==> |items| == 0
    ensures r.Some? ==> r.value.text == InsertText(table, BulkColumns(items), |items|)
    ensures r.Some? ==> r.value.params == RowMajor(items, BulkColumns(items))
    ensures r.Some? ==> Bound(r.value)
  {
    if |items| == 0 {
      return None;
    }
    var columns := Keys(Without(items[0], "id"));
    var values: seq<Value> := [];
    for i := 0 to |items|
      invariant values == RowMajor(items[..i], columns)
    {
      var row := ReadRow(items[i], columns);
      assert items[..i + 1] == items[..i] + [items[i]];
      RowMajorAppend(items[..i], items[i], columns);
      values := values + row;
    }
    assert items[..|items|] == items;
    var text := InsertText(table, columns, |items|);
    assert |values| == Slots(text) by {
      RowMajorLength(items, columns);
    }
    r := Some(Statement(text, values));
  }
}
