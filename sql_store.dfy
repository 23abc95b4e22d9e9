/** What the statements of templates/api/src/backend/db/utils.py do to a
    table: an in-memory table with an integer primary key `id` drawn from a
    serial sequence, a fixed list of other columns, and rows kept in storage
    order. Server errors the statements can provoke are modelled as
    `DbError` values. */
module SqlStore {
  import opened Wrappers
  import opened PyValue
  import opened Text

  /** A stored row: its primary key and the values of its other columns. A
      column with no entry holds NULL. */
  datatype Record = Record(id: int, fields: Dict)

  datatype Table = Table(columns: seq<string>, records: seq<Record>, nextId: int)

  datatype DbError =
    | SyntaxError           // an empty column or SET list
    | UndefinedColumn(name: string)
    | NegativeLimit
    | NegativeOffset
    | UniqueViolation       // a primary key already taken
    | InvalidId             // a primary key set to a non-integer or NULL
    | Rejected              // any other statement the server refuses

  /** The row a statement returns: `id` first, then the columns written, in
      the order written. A column never written, NULL in the server's row, is
      absent, and the table's declaration order is not modelled. */
  function RowOf(r: Record): Dict {
    [("id", Int(r.id))] + r.fields
  }

  /** How a column reads in a row, NULL where nothing was written. */
  function Column(r: Record, c: string): Value {
    if c == "id" then Int(r.id) else GetOrNull(r.fields, c)
  }

  predicate Known(t: Table, c: string) {
    c == "id" || c in t.columns
  }

  /** The ids in storage order. */
  function Ids(rs: seq<Record>): (ids: seq<int>)
    ensures |ids| == |rs|
    ensures forall i :: 0 <= i < |rs| ==> ids[i] == rs[i].id
  {
    seq(|rs|, i requires 0 <= i < |rs| => rs[i].id)
  }

  predicate DistinctIds(rs: seq<Record>) {
    forall i, j :: 0 <= i < j < |rs| ==> rs[i].id != rs[j].id
  }

  /** The primary key is unique; no column other than the key is called
      `id`. */
  predicate Valid(t: Table) {
    "id" !in t.columns && DistinctIds(t.records)
  }

  function EmptyTable(columns: seq<string>): Table {
    Table(columns, [], 1)
  }

  /** The first of `names` the table does not have. */
  function FirstUnknown(t: Table, names: seq<string>): (r: Option<string>)
    ensures r.None? <==> forall i :: 0 <= i < |names| ==> Known(t, names[i])
    ensures r.Some? ==> r.value in names && !Known(t, r.value)
    decreases |names|
  {
    if names == [] then None
    else if !Known(t, names[0]) then Some(names[0])
    else FirstUnknown(t, names[1..])
  }

  // ---------------------------------------------------------------------------
  // Lookup
  // ---------------------------------------------------------------------------

  /** Position of the first row with key `id`. */
  function IndexOf(rs: seq<Record>, id: int): (r: Option<nat>)
    ensures r.None? <==> id !in Ids(rs)
    ensures r.Some? ==> r.value < |rs| && rs[r.value].id == id
    ensures r.Some? ==> forall i :: 0 <= i < r.value ==> rs[i].id != id
    decreases |rs|
  {
    if rs == [] then None
    else if rs[0].id == id then Some(0)
    else
      var rest := IndexOf(rs[1..], id);
      assert Ids(rs) == [rs[0].id] + Ids(rs[1..]);
      if rest.None? then None else Some(rest.value + 1)
  }

  /** The first row with key `id`. */
  function Find(rs: seq<Record>, id: int): (r: Option<Record>)
    ensures r.None? <==> id !in Ids(rs)
    ensures r.Some? ==> r.value.id == id && r.value in rs
    decreases |rs|
  {
    if rs == [] then None
    else if rs[0].id == id then Some(rs[0])
    else
      assert Ids(rs) == [rs[0].id] + Ids(rs[1..]);
      Find(rs[1..], id)
  }

  lemma FindCons(r: Record, rs: seq<Record>, id: int)
    ensures Find([r] + rs, id) == if r.id == id then Some(r) else Find(rs, id)
  {
    assert ([r] + rs)[1..] == rs;
  }

  /** The row found is the row at the position found. */
  lemma {:induction false} FindAt(rs: seq<Record>, id: int)
    requires IndexOf(rs, id).Some?
    ensures Find(rs, id) == Some(rs[IndexOf(rs, id).value])
    decreases |rs|
  {
    if rs[0].id != id {
      FindAt(rs[1..], id);
    }
  }

  /** With unique keys, a row is found by its own key. */
  lemma {:induction false} FindUnique(rs: seq<Record>, i: nat)
    requires DistinctIds(rs) && i < |rs|
    ensures Find(rs, rs[i].id) == Some(rs[i])
    decreases i
  {
    if i > 0 {
      assert rs[0].id != rs[i].id;
      FindUnique(rs[1..], i - 1);
    }
  }

  /** `SELECT * FROM t WHERE id = %s`, first row: the row with that key. */
  function SelectById(t: Table, id: int): (r: Option<Record>)
    ensures r.None? <==> id !in Ids(t.records)
    ensures r.Some? ==> r.value.id == id && r.value in t.records
  {
    Find(t.records, id)
  }

  // ---------------------------------------------------------------------------
  // INSERT
  // ---------------------------------------------------------------------------

  /** The key an INSERT gives its row: the `id` it names, or else the next
      value of the sequence. */
  function InsertKey(t: Table, fields: Dict): Option<int> {
    match Get(fields, "id")
    case None => Some(t.nextId)
    case Some(v) => if v.Int? then Some(v.i) else None
  }

  /** `INSERT INTO t (cols) VALUES (...) RETURNING *`. Without an `id`
      column the new row takes the next value of the sequence, which clashes
      only if an earlier statement put a row on it; an `id` the statement
      names is stored as given, must be a model `Int` and draws nothing;
      the server's casts into the key's type are not modelled. */
  function Insert(t: Table, fields: Dict): Result<(Table, Record), DbError> {
    if |fields| == 0 then Failure(SyntaxError)
    else
      var unknown := FirstUnknown(t, Keys(fields));
      if unknown.Some? then Failure(UndefinedColumn(unknown.value))
      else
        var key := InsertKey(t, fields);
        if key.None? then Failure(InvalidId)
        else if key.value in Ids(t.records) then Failure(UniqueViolation)
        else
          var r := Record(key.value, Without(fields, "id"));
          Success((Table(t.columns, t.records + [r], if HasKey(fields, "id") then t.nextId else t.nextId + 1), r))
  }

  lemma InsertOutcome(t: Table, fields: Dict)
    ensures Insert(t, fields).Failure? <==>
      || |fields| == 0
      || (exists i :: 0 <= i < |fields| && !Known(t, Keys(fields)[i]))
      || (match Get(fields, "id")
          case None => t.nextId in Ids(t.records)
          case Some(v) => !v.Int? || v.i in Ids(t.records))
    ensures Insert(t, fields).Success? ==>
      var (t', r) := Insert(t, fields).value;
      && r == Record(InsertKey(t, fields).value, Without(fields, "id"))
      && t'.records == t.records + [r] && t'.columns == t.columns
      && t'.nextId == (if HasKey(fields, "id") then t.nextId else t.nextId + 1)
  {
    if |fields| > 0 && FirstUnknown(t, Keys(fields)).Some? {
      var u := FirstUnknown(t, Keys(fields)).value;
      var i :| 0 <= i < |Keys(fields)| && Keys(fields)[i] == u;
    }
  }

  lemma InsertValid(t: Table, fields: Dict)
    requires Valid(t) && Insert(t, fields).Success?
    ensures Valid(Insert(t, fields).value.0)
  {
    var (t', r) := Insert(t, fields).value;
    forall i | 0 <= i < |t.records| ensures t.records[i].id != r.id {
      assert Ids(t.records)[i] == t.records[i].id;
    }
  }

  /** A created row reads back by its key with the values written; the key
      is the one named or else the sequence's. */
  lemma CreateThenGet(t: Table, fields: Dict)
    requires Valid(t) && Insert(t, fields).Success?
    ensures var (t', r) := Insert(t, fields).value;
      && SelectById(t', r.id) == Some(r)
      && r.fields == Without(fields, "id")
      && r.id == (if HasKey(fields, "id") then Get(fields, "id").value.i else t.nextId)
  {
    var (t', r) := Insert(t, fields).value;
    InsertValid(t, fields);
    FindUnique(t'.records, |t.records|);
  }

  /** An INSERT naming an integer `id` stores the row under that key, with
      the other fields, and leaves the sequence alone whether it succeeds or
      clashes. */
  lemma InsertExplicitId(t: Table, fields: Dict, id: int)
    requires Get(fields, "id") == Some(Int(id)) && FirstUnknown(t, Keys(fields)).None?
    ensures !Draws(t, Keys(fields))
    ensures CreateAttempt(t, fields) ==
      if id in Ids(t.records) then (t, Failure(UniqueViolation))
      else
        var r := Record(id, Without(fields, "id"));
        (t.(records := t.records + [r]), Success(r))
  {
    assert HasKey(fields, "id");
  }

  /** An `id` naming anything but a model `Int` is refused, and draws
      nothing. */
  lemma InsertInvalidId(t: Table, fields: Dict)
    requires Get(fields, "id").Some? && !Get(fields, "id").value.Int?
    requires FirstUnknown(t, Keys(fields)).None?
    ensures CreateAttempt(t, fields) == (t, Failure(InvalidId))
  {
    assert HasKey(fields, "id");
  }

  /** `INSERT INTO t (id, name) VALUES (5, 'x')` into an empty table stores
      one row under key 5 with `id` once in the returned row, and the
      sequence still starts at 1. */
  lemma InsertNamedIdExample()
    ensures var (t, r) := CreateAttempt(EmptyTable(["name"]), [("id", Int(5)), ("name", Str("x"))]);
      && r == Success(Record(5, [("name", Str("x"))]))
      && t == Table(["name"], [Record(5, [("name", Str("x"))])], 1)
      && RowOf(r.value) == [("id", Int(5)), ("name", Str("x"))]
  {
    var fields := [("id", Int(5)), ("name", Str("x"))];
    assert Keys(fields) == ["id", "name"];
    assert fields[1..] == [("name", Str("x"))];
    assert Keys([("name", Str("x"))]) == ["name"];
    assert [("name", Str("x"))][1..] == [];
    assert Without(fields, "id") == [("name", Str("x"))];
    assert FirstUnknown(EmptyTable(["name"]), ["id", "name"]) == None;
    InsertExplicitId(EmptyTable(["name"]), fields, 5);
  }

  /** Some key in `[lo, lo + n)` is already used. */
  predicate Taken(t: Table, lo: int, n: nat) {
    exists k :: k in Ids(t.records) && lo <= k < lo + n
  }

  /** `INSERT ... VALUES (row 1), (row 2), ... RETURNING *` for bulk_create,
      whose column list never names `id`: the rows take consecutive ids, in
      input order. */
  function InsertMany(t: Table, columns: seq<string>, rows: seq<seq<Value>>): (r: Result<(Table, seq<Record>), DbError>)
    requires "id" !in columns
    requires forall i :: 0 <= i < |rows| ==> |rows[i]| == |columns|
    ensures r.Success? ==> |r.value.1| == |rows|
  {
    if |columns| == 0 then Failure(SyntaxError)
    else
      var unknown := FirstUnknown(t, columns);
      if unknown.Some? then Failure(UndefinedColumn(unknown.value))
      else if Taken(t, t.nextId, |rows|) then Failure(UniqueViolation)
      else
        var made := seq(|rows|, i requires 0 <= i < |rows| => Record(t.nextId + i, Zip(columns, rows[i])));
        Success((Table(t.columns, t.records + made, t.nextId + |rows|), made))
  }

  lemma InsertManyShape(t: Table, columns: seq<string>, rows: seq<seq<Value>>)
    requires "id" !in columns
    requires forall i :: 0 <= i < |rows| ==> |rows[i]| == |columns|
    requires InsertMany(t, columns, rows).Success?
    ensures var (t', made) := InsertMany(t, columns, rows).value;
      && t'.records == t.records + made
      && t'.nextId == t.nextId + |rows|
      && forall i :: 0 <= i < |rows| ==>
           made[i].id == t.nextId + i && Keys(made[i].fields) == columns && Values(made[i].fields) == rows[i]
  {
    var (t', made) := InsertMany(t, columns, rows).value;
    forall i | 0 <= i < |rows|
      ensures made[i].id == t.nextId + i && Keys(made[i].fields) == columns && Values(made[i].fields) == rows[i]
    {
      assert made[i] == Record(t.nextId + i, Zip(columns, rows[i]));
    }
  }

  lemma InsertManyValid(t: Table, columns: seq<string>, rows: seq<seq<Value>>)
    requires "id" !in columns
    requires forall i :: 0 <= i < |rows| ==> |rows[i]| == |columns|
    requires Valid(t) && InsertMany(t, columns, rows).Success?
    ensures Valid(InsertMany(t, columns, rows).value.0)
  {
    var (t', made) := InsertMany(t, columns, rows).value;
    forall i, j | 0 <= i < j < |t'.records| ensures t'.records[i].id != t'.records[j].id {
      if j >= |t.records| && i < |t.records| {
        assert t'.records[j] == made[j - |t.records|];
        assert Ids(t.records)[i] in Ids(t.records);
      } else if i >= |t.records| {
        assert t'.records[i] == made[i - |t.records|];
        assert t'.records[j] == made[j - |t.records|];
      }
    }
  }

  // ---------------------------------------------------------------------------
  // The id sequence
  // ---------------------------------------------------------------------------

  /** Whether an INSERT naming these columns calls `nextval`: that happens
      when it forms its rows and leaves `id` to its serial default. An empty
      column list or an unknown column is refused before any row is formed,
      and an `id` the statement names replaces the default. */
  predicate Draws(t: Table, columns: seq<string>) {
    |columns| > 0 && FirstUnknown(t, columns).None? && "id" !in columns
  }

  /** An INSERT of one row as the server runs it. A key clash on a drawn
      key has already taken its value from the sequence, and PostgreSQL
      never gives a drawn value back, so the table's next key moves on even
      though no row was added. */
  function CreateAttempt(t: Table, fields: Dict): (Table, Result<Record, DbError>) {
    match Insert(t, fields)
    case Success((t', r)) => (t', Success(r))
    case Failure(e) => (if Draws(t, Keys(fields)) then t.(nextId := t.nextId + 1) else t, Failure(e))
  }

  /** Every INSERT that forms its row uses up one sequence value, whether it
      then succeeds or clashes; a refused one adds no row. */
  lemma CreateAttemptSpec(t: Table, fields: Dict)
    ensures var (t', r) := CreateAttempt(t, fields);
      && t'.columns == t.columns
      && t'.nextId == (if Draws(t, Keys(fields)) then t.nextId + 1 else t.nextId)
      && (r.Success? <==> Insert(t, fields).Success?)
      && (r.Success? ==> t' == Insert(t, fields).value.0 && r.value == Insert(t, fields).value.1)
      && (r.Failure? ==> r.error == Insert(t, fields).error && t'.records == t.records)
  {
  }

  /** `n` create_item calls in a row with the same fields. */
  function Creates(t: Table, fields: Dict, n: nat): Table {
    if n == 0 then t else CreateAttempt(Creates(t, fields, n - 1), fields).0
  }

  /** While every call clashes, each one moves the sequence on by one and
      leaves the rows alone. */
  lemma {:induction false} CreatesClash(t: Table, fields: Dict, n: nat)
    requires Draws(t, Keys(fields))
    requires forall i :: 0 <= i < n ==> Insert(Creates(t, fields, i), fields).Failure?
    ensures Creates(t, fields, n) == t.(nextId := t.nextId + n)
  {
    if n > 0 {
      CreatesClash(t, fields, n - 1);
      var before := Creates(t, fields, n - 1);
      assert Insert(before, fields).Failure?;
      assert FirstUnknown(before, Keys(fields)) == FirstUnknown(t, Keys(fields)) by {
        FirstUnknownColumns(t, before, Keys(fields));
      }
    }
  }

  lemma {:induction false} FirstUnknownColumns(t: Table, u: Table, names: seq<string>)
    requires t.columns == u.columns
    ensures FirstUnknown(t, names) == FirstUnknown(u, names)
    decreases |names|
  {
    if names != [] {
      FirstUnknownColumns(t, u, names[1..]);
    }
  }

  /** A clash never locks create_item out: with columns the table has, one
      of the first `|rows| + 1` calls in a row succeeds, because the
      sequence moves past a taken key at every clash and there are only
      that many keys to pass. */
  lemma CreateEventuallySucceeds(t: Table, fields: Dict)
    requires Draws(t, Keys(fields))
    ensures exists n :: 0 <= n <= |t.records| && Insert(Creates(t, fields, n), fields).Success?
  {
    var k := MissingKey(Ids(t.records), t.nextId);
    if forall i :: 0 <= i < k ==> Insert(Creates(t, fields, i), fields).Failure? {
      CreatesClash(t, fields, k);
      assert Insert(Creates(t, fields, k), fields).Success?;
    }
  }

  /** An UPDATE that moves a row onto the next key makes the next
      create_item clash once; that clash moves the sequence past the key, and
      the call after it succeeds under key 3. */
  lemma ClashThenCreate()
    ensures var t := Table(["name"], [Record(1, [("name", Str("a"))])], 2);
      var moved := Update(t, 1, [("id", Int(2))]);
      && moved.Success?
      && var (u, r) := CreateAttempt(moved.value.0, [("name", Str("b"))]);
      && r == Failure(UniqueViolation)
      && u.nextId == 3
      && Insert(u, [("name", Str("b"))]).Success?
      && Insert(u, [("name", Str("b"))]).value.1.id == 3
  {
    var t := Table(["name"], [Record(1, [("name", Str("a"))])], 2);
    var updates := [("id", Int(2))];
    assert Keys(updates) == ["id"];
    assert Keys([("name", Str("b"))]) == ["name"];
    assert Without(updates, "id") == [];
    assert FirstUnknown(t, ["id"]) == None;
    assert UniqueKeys(updates);
    assert Ids(t.records) == [1];
    assert IndexOf(t.records, 1) == Some(0);
    assert Get(updates, "id") == Some(Int(2));
    assert Assign([("name", Str("a"))], []) == [("name", Str("a"))];
    var u := Table(["name"], [Record(2, [("name", Str("a"))])], 2);
    assert t.records[0 := Record(2, [("name", Str("a"))])] == u.records;
    assert Update(t, 1, updates) == Success((u, Some(Record(2, [("name", Str("a"))]))));
    assert Ids(u.records) == [2];
  }

  /** Among `lo, lo + 1, ..., lo + |ids|` some value is not in `ids`: if `lo`
      is taken, drop one occurrence of it and look from `lo + 1`. */
  lemma {:induction false} MissingKey(ids: seq<int>, lo: int) returns (k: nat)
    ensures k <= |ids| && lo + k !in ids
    decreases |ids|
  {
    if lo !in ids {
      return 0;
    }
    var i :| 0 <= i < |ids| && ids[i] == lo;
    var rest := ids[..i] + ids[i + 1..];
    var k' := MissingKey(rest, lo + 1);
    assert ids == ids[..i] + [lo] + ids[i + 1..];
    k := k' + 1;
  }

  /** The first key in `[lo, lo + n)` that is already used, as an offset. */
  function ClashOffset(t: Table, lo: int, n: nat): (k: nat)
    requires Taken(t, lo, n)
    ensures k < n && lo + k in Ids(t.records)
    ensures forall m :: lo <= m < lo + k ==> m !in Ids(t.records)
    decreases n
  {
    if lo in Ids(t.records) then 0
    else
      assert Taken(t, lo + 1, n - 1) by {
        var m :| m in Ids(t.records) && lo <= m < lo + n;
      }
      1 + ClashOffset(t, lo + 1, n - 1)
  }

  /** bulk_create's INSERT as the server runs it. The rows draw their keys
      one after another; the first clash aborts the statement, after every
      row up to and including it has drawn a sequence value. */
  function BulkAttempt(t: Table, columns: seq<string>, rows: seq<seq<Value>>): (Table, Result<seq<Record>, DbError>)
    requires "id" !in columns
    requires forall i :: 0 <= i < |rows| ==> |rows[i]| == |columns|
  {
    match InsertMany(t, columns, rows)
    case Success((t', made)) => (t', Success(made))
    case Failure(e) =>
      (if e == UniqueViolation then t.(nextId := t.nextId + ClashOffset(t, t.nextId, |rows|) + 1) else t, Failure(e))
  }

  /** A refused multi-row INSERT adds no row. A clash has used up the keys up
      to and including the first taken one, all of them free but the last;
      any other refusal draws nothing. */
  lemma BulkAttemptSpec(t: Table, columns: seq<string>, rows: seq<seq<Value>>)
    requires "id" !in columns
    requires forall i :: 0 <= i < |rows| ==> |rows[i]| == |columns|
    ensures var (t', r) := BulkAttempt(t, columns, rows);
      && t'.columns == t.columns
      && (r.Success? <==> InsertMany(t, columns, rows).Success?)
      && (r.Success? ==> (t', r.value) == InsertMany(t, columns, rows).value)
      && (r.Failure? ==> r.error == InsertMany(t, columns, rows).error && t'.records == t.records)
      && (r.Failure? && r.error == UniqueViolation ==>
            && Draws(t, columns)
            && t.nextId < t'.nextId <= t.nextId + |rows|
            && t'.nextId - 1 in Ids(t.records)
            && forall k :: t.nextId <= k < t'.nextId - 1 ==> k !in Ids(t.records))
      && (r.Failure? && r.error != UniqueViolation ==> t'.nextId == t.nextId)
  {
    var (t', r) := BulkAttempt(t, columns, rows);
  }

  // ---------------------------------------------------------------------------
  // SELECT with filters and a window
  // ---------------------------------------------------------------------------

  /** `c1 = v1 AND c2 = v2 ...`; a comparison with NULL is never true. */
  predicate Matches(r: Record, where: Dict) {
    forall i :: 0 <= i < |where| ==> where[i].1 != Null && Column(r, where[i].0) == where[i].1
  }

  function Matching(rs: seq<Record>, where: Dict): (m: seq<Record>)
    ensures |m| <= |rs|
    ensures forall r :: r in m <==> r in rs && Matches(r, where)
    decreases |rs|
  {
    if rs == [] then []
    else (if Matches(rs[0], where) then [rs[0]] else []) + Matching(rs[1..], where)
  }

  /** Filtering keeps storage order: the matches of two runs of rows are the
      matches of the first followed by those of the second. */
  lemma {:induction false} MatchingAppend(a: seq<Record>, b: seq<Record>, where: Dict)
    ensures Matching(a + b, where) == Matching(a, where) + Matching(b, where)
    decreases |a|
  {
    if a == [] {
      assert a + b == b;
    } else {
      var head := if Matches(a[0], where) then [a[0]] else [];
      ConsAppend(a, b);
      MatchingCons(a[0], a[1..] + b, where);
      assert Matching(a, where) == head + Matching(a[1..], where);
      MatchingAppend(a[1..], b, where);
      AppendAssoc(head, Matching(a[1..], where), Matching(b, where));
    }
  }

  lemma MatchingCons(r: Record, rs: seq<Record>, where: Dict)
    ensures Matching([r] + rs, where) == (if Matches(r, where) then [r] else []) + Matching(rs, where)
  {
    assert ([r] + rs)[1..] == rs;
  }

  /** The `k`-th match is the stored row `j` that matches and has exactly `k`
      matching rows before it. */
  lemma {:induction false} MatchingAt(rs: seq<Record>, where: Dict, k: nat) returns (j: nat)
    requires k < |Matching(rs, where)|
    ensures j < |rs| && Matching(rs, where)[k] == rs[j]
    ensures Matches(rs[j], where) && |Matching(rs[..j], where)| == k
    decreases |rs|
  {
    var head := if Matches(rs[0], where) then [rs[0]] else [];
    assert Matching(rs, where) == head + Matching(rs[1..], where);
    if Matches(rs[0], where) && k == 0 {
      j := 0;
      assert rs[..0] == [];
    } else {
      var j' := MatchingAt(rs[1..], where, k - |head|);
      j := j' + 1;
      PrefixOfTail(rs, j);
      MatchingCons(rs[0], rs[1..][..j'], where);
    }
  }

  lemma ConsAppend<T>(a: seq<T>, b: seq<T>)
    requires a != []
    ensures a + b == [a[0]] + (a[1..] + b)
  {
  }

  lemma AppendAssoc<T>(a: seq<T>, b: seq<T>, c: seq<T>)
    ensures a + (b + c) == (a + b) + c
  {
  }

  lemma PrefixOfTail<T>(s: seq<T>, n: nat)
    requires 0 < n <= |s|
    ensures s[..n] == [s[0]] + s[1..][..n - 1]
  {
  }

  /** Conversely, every matching stored row `j` is the match numbered by the
      matching rows before it. */
  lemma MatchingIndexOf(rs: seq<Record>, where: Dict, j: nat)
    requires j < |rs| && Matches(rs[j], where)
    ensures |Matching(rs[..j], where)| < |Matching(rs, where)|
    ensures Matching(rs, where)[|Matching(rs[..j], where)|] == rs[j]
  {
    assert rs == rs[..j] + ([rs[j]] + rs[j + 1..]);
    MatchingAppend(rs[..j], [rs[j]] + rs[j + 1..], where);
    assert ([rs[j]] + rs[j + 1..])[1..] == rs[j + 1..];
  }

  /** `LIMIT l OFFSET o` over rows in order. */
  function Window<T>(s: seq<T>, limit: nat, offset: nat): (w: seq<T>)
    ensures |w| == Min(limit, if offset <= |s| then |s| - offset else 0)
    ensures forall i :: 0 <= i < |w| ==> w[i] == s[offset + i]
  {
    var lo := Min(offset, |s|);
    var hi := Min(offset + limit, |s|);
    s[lo..hi]
  }

  /** get_items' statement over the table. ORDER BY is checked for an existing
      column; its sort is not modelled, so rows come in storage order. */
  function Select(t: Table, where: Dict, orderBy: Option<string>, limit: int, offset: int): Result<seq<Record>, DbError> {
    var unknown := FirstUnknown(t, Keys(where) + (if orderBy.Some? then [orderBy.value] else []));
    if unknown.Some? then Failure(UndefinedColumn(unknown.value))
    else if limit < 0 then Failure(NegativeLimit)
    else if offset < 0 then Failure(NegativeOffset)
    else Success(Window(Matching(t.records, where), limit, offset))
  }

  lemma SelectSpec(t: Table, where: Dict, orderBy: Option<string>, limit: int, offset: int)
    requires Select(t, where, orderBy, limit, offset).Success?
    ensures limit >= 0 && offset >= 0
    ensures var rows := Select(t, where, orderBy, limit, offset).value;
      var n := |Matching(t.records, where)|;
      && |rows| == Min(limit, if offset <= n then n - offset else 0)
      && (forall i :: 0 <= i < |rows| ==> rows[i] == Matching(t.records, where)[offset + i])
      && forall i :: 0 <= i < |rows| ==> rows[i] in t.records && Matches(rows[i], where)
  {
    var m := Matching(t.records, where);
    var rows := Select(t, where, orderBy, limit, offset).value;
    assert rows == Window(m, limit, offset);
    forall i | 0 <= i < |rows| ensures rows[i] in t.records && Matches(rows[i], where) {
      MatchingMember(t.records, where, m[offset + i]);
    }
  }

  lemma MatchingMember(rs: seq<Record>, where: Dict, r: Record)
    requires r in Matching(rs, where)
    ensures r in rs && Matches(r, where)
  {
  }

  /** Row `i` of a page is the stored row with `offset + i` matching rows
      before it. */
  lemma SelectRow(t: Table, where: Dict, orderBy: Option<string>, limit: int, offset: int, i: nat) returns (j: nat)
    requires Select(t, where, orderBy, limit, offset).Success?
    requires i < |Select(t, where, orderBy, limit, offset).value|
    ensures j < |t.records| && Select(t, where, orderBy, limit, offset).value[i] == t.records[j]
    ensures Matches(t.records[j], where) && |Matching(t.records[..j], where)| == offset + i
  {
    var rows := Select(t, where, orderBy, limit, offset).value;
    SelectSpec(t, where, orderBy, limit, offset);
    assert rows[i] == Matching(t.records, where)[offset + i];
    j := MatchingAt(t.records, where, offset + i);
  }

  /** With no filters, the default window returns the first hundred rows. */
  lemma SelectUnfiltered(t: Table, limit: nat)
    ensures Select(t, [], None, limit, 0) == Success(t.records[..Min(limit, |t.records|)])
  {
    assert Keys([]) + [] == [];
    MatchingAll(t.records);
  }

  lemma {:induction false} MatchingAll(rs: seq<Record>)
    ensures Matching(rs, []) == rs
    decreases |rs|
  {
    if rs != [] {
      MatchingAll(rs[1..]);
      assert [rs[0]] + rs[1..] == rs;
    }
  }

  /** A negative limit or offset is refused by the server; nothing in the
      builder checks it. */
  lemma SelectNegative(t: Table, where: Dict, limit: int, offset: int)
    requires FirstUnknown(t, Keys(where)).None?
    requires limit < 0 || offset < 0
    ensures Select(t, where, None, limit, offset).Failure?
  {
    assert Keys(where) + [] == Keys(where);
  }

  // ---------------------------------------------------------------------------
  // UPDATE
  // ---------------------------------------------------------------------------

  /** The column values after `SET c1 = v1, c2 = v2, ...`. */
  function Assign(fields: Dict, updates: Dict): Dict
    decreases |updates|
  {
    if updates == [] then fields
    else Assign(Put(fields, updates[0].0, updates[0].1), updates[1..])
  }

  /** An assigned column reads its new value, any other column its old one. */
  lemma {:induction false} AssignGet(fields: Dict, updates: Dict, c: string)
    requires UniqueKeys(updates)
    ensures Get(Assign(fields, updates), c) == (if HasKey(updates, c) then Get(updates, c) else Get(fields, c))
    decreases |updates|
  {
    if updates != [] {
      var e, rest := updates[0], updates[1..];
      assert updates == [e] + rest;
      KeysCons(e, rest);
      assert UniqueKeys(rest) by {
        assert forall i :: 0 <= i < |rest| ==> Keys(rest)[i] == Keys(updates)[i + 1];
      }
      AssignGet(Put(fields, e.0, e.1), rest, c);
      GetCons(e, rest, c);
      if c == e.0 {
        assert !HasKey(rest, c) by {
          forall i | 0 <= i < |rest| ensures Keys(rest)[i] != c {
            assert Keys(updates)[i + 1] == Keys(rest)[i];
          }
        }
      }
    }
  }

  /** `UPDATE t SET ... WHERE id = %s RETURNING *`. An empty SET list is a
      syntax error; no matching row gives no row back. An assignment to `id`
      moves the row to a new key, which must be an unused integer; a column
      assigned twice is refused. */
  function Update(t: Table, id: int, updates: Dict): Result<(Table, Option<Record>), DbError> {
    if |updates| == 0 then Failure(SyntaxError)
    else
      var unknown := FirstUnknown(t, Keys(updates));
      if unknown.Some? then Failure(UndefinedColumn(unknown.value))
      else if !UniqueKeys(updates) then Failure(Rejected)
      else
        var i := IndexOf(t.records, id);
        if i.None? then Success((t, None))
        else
          var cur := t.records[i.value];
          var key := Get(updates, "id");
          if key.Some? && !key.value.Int? then Failure(InvalidId)
          else
            var newId := if key.Some? then key.value.i else id;
            if newId != id && newId in Ids(t.records) then Failure(UniqueViolation)
            else
              var r := Record(newId, Assign(cur.fields, Without(updates, "id")));
              Success((Table(t.columns, t.records[i.value := r], t.nextId), Some(r)))
  }

  /** update_item returns None exactly when no row has the key (for a
      non-empty update of existing columns). */
  lemma UpdateMissing(t: Table, id: int, updates: Dict)
    requires |updates| > 0 && FirstUnknown(t, Keys(updates)).None? && UniqueKeys(updates)
    ensures (Update(t, id, updates) == Success((t, None))) <==> SelectById(t, id).None?
  {
  }

  lemma UpdateEmpty(t: Table, id: int)
    ensures Update(t, id, []) == Failure(SyntaxError)
  {
  }

  /** After a successful update the row reads back under its key with every
      assigned column holding the assigned value and every other column as
      it was. */
  lemma UpdateThenGet(t: Table, id: int, updates: Dict)
    requires Valid(t) && Update(t, id, updates).Success? && Update(t, id, updates).value.1.Some?
    ensures var (t', r) := Update(t, id, updates).value;
      var before := SelectById(t, id).value;
      && SelectById(t', r.value.id) == r
      && forall c :: c != "id" ==>
           Column(r.value, c) == (if HasKey(updates, c) then Get(updates, c).value else Column(before, c))
  {
    var i := IndexOf(t.records, id).value;
    var (t', r) := Update(t, id, updates).value;
    UpdateValid(t, id, updates);
    FindUnique(t'.records, i);
    FindAt(t.records, id);
    forall c | c != "id"
      ensures Column(r.value, c) == (if HasKey(updates, c) then Get(updates, c).value else Column(t.records[i], c))
    {
      WithoutUnique(updates, "id");
      AssignGet(t.records[i].fields, Without(updates, "id"), c);
    }
  }

  lemma UpdateValid(t: Table, id: int, updates: Dict)
    requires Valid(t) && Update(t, id, updates).Success?
    ensures Valid(Update(t, id, updates).value.0)
  {
    var (t', r) := Update(t, id, updates).value;
    if r.Some? {
      var i := IndexOf(t.records, id).value;
      var rec := r.value;
      assert t'.records == t.records[i := rec];
      forall a, b | 0 <= a < b < |t'.records| ensures t'.records[a].id != t'.records[b].id {
        if a == i || b == i {
          var other := if a == i then b else a;
          if rec.id != id {
            assert Ids(t.records)[other] == t.records[other].id;
          }
        }
      }
    }
  }

  /** An UPDATE names its new key itself and draws nothing from the
      sequence. */
  lemma UpdateKeepsSequence(t: Table, id: int, updates: Dict)
    requires Update(t, id, updates).Success?
    ensures Update(t, id, updates).value.0.columns == t.columns
    ensures Update(t, id, updates).value.0.nextId == t.nextId
  {
  }

  // ---------------------------------------------------------------------------
  // DELETE
  // ---------------------------------------------------------------------------

  function Remove(rs: seq<Record>, id: int): seq<Record>
    decreases |rs|
  {
    if rs == [] then []
    else (if rs[0].id == id then [] else [rs[0]]) + Remove(rs[1..], id)
  }

  /** What survives the removal: every row with another key, and only those. */
  lemma {:induction false} RemoveMember(rs: seq<Record>, id: int, x: Record)
    ensures x in Remove(rs, id) <==> x in rs && x.id != id
    decreases |rs|
  {
    if rs != [] {
      RemoveMember(rs[1..], id, x);
      assert rs == [rs[0]] + rs[1..];
    }
  }

  /** `DELETE FROM t WHERE id = %s RETURNING id`: the table without that row,
      and whether a row came back. */
  function Delete(t: Table, id: int): (Table, bool) {
    (Table(t.columns, Remove(t.records, id), t.nextId), id in Ids(t.records))
  }

  /** delete_item returns true exactly when get_item would have found the row;
      afterwards the row is gone and a second delete returns false. */
  lemma DeleteSpec(t: Table, id: int)
    ensures Delete(t, id).1 <==> SelectById(t, id).Some?
    ensures SelectById(Delete(t, id).0, id).None?
    ensures !Delete(Delete(t, id).0, id).1
  {
    var rs := Remove(t.records, id);
    forall k | 0 <= k < |rs| ensures Ids(rs)[k] != id {
      RemoveMember(t.records, id, rs[k]);
    }
  }

  lemma DeleteKeepsOthers(t: Table, id: int, other: int)
    requires other != id
    ensures SelectById(Delete(t, id).0, other) == SelectById(t, other)
  {
    RemoveFind(t.records, id, other);
  }

  lemma {:induction false} RemoveFind(rs: seq<Record>, id: int, other: int)
    requires other != id
    ensures Find(Remove(rs, id), other) == Find(rs, other)
    decreases |rs|
  {
    if rs != [] {
      RemoveFind(rs[1..], id, other);
      var rest := Remove(rs[1..], id);
      if rs[0].id == id {
        assert Remove(rs, id) == [] + rest == rest;
      } else {
        assert Remove(rs, id) == [rs[0]] + rest;
        FindCons(rs[0], rest, other);
      }
    }
  }

  lemma {:induction false} RemoveDistinct(rs: seq<Record>, id: int)
    requires DistinctIds(rs)
    ensures DistinctIds(Remove(rs, id))
    decreases |rs|
  {
    if rs != [] {
      RemoveDistinct(rs[1..], id);
      var rest := Remove(rs[1..], id);
      if rs[0].id != id {
        forall k | 0 <= k < |rest| ensures rest[k].id != rs[0].id {
          RemoveMember(rs[1..], id, rest[k]);
        }
      }
    }
  }

  lemma DeleteValid(t: Table, id: int)
    requires Valid(t)
    ensures Valid(Delete(t, id).0)
  {
    RemoveDistinct(t.records, id);
  }
}
