/** Statement text of the generic CRUD layer (templates/api/src/backend/db/utils.py).

    A statement is built the way psycopg's `sql` module composes one: fixed
    SQL written in the source (`Raw`), a quoted identifier (`Identifier`,
    psycopg's `sql.Identifier`, whose escaping is not modelled), a parameter
    slot (`Slot`, psycopg's `%s` / `sql.Placeholder()`), and the composition of
    two pieces. Raw SQL can only be one of the source's own fragments, so a
    caller-supplied table or column name reaches a statement only inside an
    identifier, and a value never reaches the text at all: values travel in
    the statement's parameter list. */
module SqlStatement {
  import opened Wrappers
  import opened PyValue

  /** The SQL fragments that db/utils.py writes itself. */
  datatype Fragment =
    | InsertInto | Open | Close | Comma | ValuesKw | ReturningAll
    | SelectFrom | Where | And | Equals | OrderBy | Limit | OffsetKw
    | UpdateKw | SetKw | WhereIdEquals | DeleteFrom | ReturningId

  function FragmentText(f: Fragment): string {
    match f
    case InsertInto => "INSERT INTO"
    case Open => "("
    case Close => ")"
    case Comma => ", "
    case ValuesKw => "VALUES"
    case ReturningAll => "RETURNING *"
    case SelectFrom => "SELECT * FROM"
    case Where => "WHERE"
    case And => " AND "
    case Equals => "="
    case OrderBy => "ORDER BY"
    case Limit => "LIMIT"
    case OffsetKw => "OFFSET"
    case UpdateKw => "UPDATE"
    case SetKw => "SET"
    case WhereIdEquals => "WHERE id ="
    case DeleteFrom => "DELETE FROM"
    case ReturningId => "RETURNING id"
  }

  datatype Composed =
    | Empty
    | Raw(fragment: Fragment)
    | Identifier(name: string)
    | Slot
    | Then(first: Composed, second: Composed)

  datatype Statement = Statement(text: Composed, params: seq<Value>)

  /** Number of `%s` slots in a piece of text. */
  function Slots(c: Composed): nat {
    match c
    case Slot => 1
    case Then(a, b) => Slots(a) + Slots(b)
    case _ => 0
  }

  /** The identifier names of a piece of text, in the order they are written. */
  function Names(c: Composed): seq<string> {
    match c
    case Identifier(n) => [n]
    case Then(a, b) => Names(a) + Names(b)
    case _ => []
  }

  /** The fragments written somewhere in the text. */
  function Fragments(c: Composed): set<Fragment> {
    match c
    case Raw(f) => {f}
    case Then(a, b) => Fragments(a) + Fragments(b)
    case _ => {}
  }

  /** The last fragment written, if the text ends with one. */
  function Last(c: Composed): Option<Fragment> {
    match c
    case Raw(f) => Some(f)
    case Then(a, b) => if b == Empty then Last(a) else Last(b)
    case _ => None
  }

  /** The text as the server receives it, identifiers double-quoted. */
  function Render(c: Composed): string {
    match c
    case Empty => ""
    case Raw(f) => FragmentText(f)
    case Identifier(n) => "\"" + n + "\""
    case Slot => "%s"
    case Then(a, b) => Render(a) + " " + Render(b)
  }

  /** A statement binds exactly one parameter per slot. */
  predicate Bound(stmt: Statement) {
    Slots(stmt.text) == |stmt.params|
  }

  /** `a` followed by `b`. */
  function Cat(a: Composed, b: Composed): (r: Composed)
    ensures Slots(r) == Slots(a) + Slots(b)
    ensures Names(r) == Names(a) + Names(b)
    ensures Fragments(r) == Fragments(a) + Fragments(b)
    ensures b != Empty ==> Last(r) == Last(b)
  {
    Then(a, b)
  }

  function Seq3(a: Composed, b: Composed, c: Composed): (r: Composed)
    ensures Slots(r) == Slots(a) + Slots(b) + Slots(c)
    ensures Names(r) == Names(a) + Names(b) + Names(c)
    ensures Fragments(r) == Fragments(a) + Fragments(b) + Fragments(c)
    ensures c != Empty ==> Last(r) == Last(c)
  {
    Cat(Cat(a, b), c)
  }

  function Key(f: Fragment): (r: Composed)
    ensures Slots(r) == 0 && Names(r) == [] && Last(r) == Some(f)
    ensures Fragments(r) == {f}
  {
    Raw(f)
  }

  function Name(n: string): (r: Composed)
    ensures Slots(r) == 0 && Names(r) == [n] && Last(r) == None
    ensures Fragments(r) == {}
  {
    Identifier(n)
  }

  function Hole(): (r: Composed)
    ensures Slots(r) == 1 && Names(r) == [] && Last(r) == None
    ensures Fragments(r) == {}
  {
    Slot
  }

  /** psycopg's `sql.SQL(sep).join(parts)`. */
  function JoinWith(parts: seq<Composed>, sep: Fragment): Composed
    decreases |parts|
  {
    if |parts| == 0 then Empty
    else if |parts| == 1 then parts[0]
    else Seq3(parts[0], Key(sep), JoinWith(parts[1..], sep))
  }

  lemma {:induction false} JoinSlots(parts: seq<Composed>, sep: Fragment, k: nat)
    requires forall i :: 0 <= i < |parts| ==> Slots(parts[i]) == k
    ensures Slots(JoinWith(parts, sep)) == |parts| * k
    decreases |parts|
  {
    if |parts| > 1 {
      JoinSlots(parts[1..], sep, k);
      MulSucc(|parts|, k);
    }
  }

  lemma MulSucc(m: nat, k: nat)
    requires m > 0
    ensures m * k == (m - 1) * k + k
  {
  }

  lemma {:induction false} JoinNames(parts: seq<Composed>, sep: Fragment, names: seq<seq<string>>)
    requires |parts| == |names|
    requires forall i :: 0 <= i < |parts| ==> Names(parts[i]) == names[i]
    ensures Names(JoinWith(parts, sep)) == Flatten(names)
    decreases |parts|
  {
    if |parts| == 1 {
      assert Flatten(names) == names[0] + Flatten(names[1..]);
    } else if |parts| > 1 {
      JoinNames(parts[1..], sep, names[1..]);
    }
  }

  /** A fragment written in no part and different from the separator is not
      written in their join either. */
  lemma {:induction false} JoinAvoids(parts: seq<Composed>, sep: Fragment, f: Fragment)
    requires f != sep
    requires forall i :: 0 <= i < |parts| ==> f !in Fragments(parts[i])
    ensures f !in Fragments(JoinWith(parts, sep))
    decreases |parts|
  {
    if |parts| > 1 {
      JoinAvoids(parts[1..], sep, f);
    }
  }

  function Flatten(xs: seq<seq<string>>): seq<string>
    decreases |xs|
  {
    if xs == [] then [] else xs[0] + Flatten(xs[1..])
  }

  /** The names one per entry, as a list of one-element lists. */
  function Singletons(names: seq<string>): seq<seq<string>> {
    seq(|names|, i requires 0 <= i < |names| => [names[i]])
  }

  lemma {:induction false} FlattenSingletons(names: seq<string>)
    ensures Flatten(Singletons(names)) == names
    decreases |names|
  {
    if names != [] {
      FlattenSingletons(names[1..]);
      assert Singletons(names)[1..] == Singletons(names[1..]);
    }
  }

  /** `n` empty name lists. */
  function NoNames(n: nat): seq<seq<string>> {
    seq(n, i => [])
  }

  lemma {:induction false} FlattenEmpties(n: nat)
    ensures Flatten(NoNames(n)) == []
    decreases n
  {
    if n > 0 {
      FlattenEmpties(n - 1);
      assert NoNames(n)[1..] == NoNames(n - 1);
    }
  }

  // ---------------------------------------------------------------------------
  // The statement shapes of db/utils.py
  // ---------------------------------------------------------------------------

  /** `sql.SQL(', ').join(map(sql.Identifier, names))`. */
  function IdentList(names: seq<string>): (text: Composed)
    ensures Slots(text) == 0 && Names(text) == names
  {
    var parts := seq(|names|, i requires 0 <= i < |names| => Name(names[i]));
    JoinSlots(parts, Comma, 0);
    JoinNames(parts, Comma, Singletons(names));
    FlattenSingletons(names);
    JoinWith(parts, Comma)
  }

  /** One parenthesised row of `k` slots: `(%s, %s, ...)`. */
  function SlotRow(k: nat): (text: Composed)
    ensures Slots(text) == k && Names(text) == []
  {
    var slots := seq(k, i => Hole());
    JoinSlots(slots, Comma, 1);
    JoinNames(slots, Comma, NoNames(k));
    FlattenEmpties(k);
    Seq3(Key(Open), JoinWith(slots, Comma), Key(Close))
  }

  /** `rows` rows of `k` slots each, separated by commas. */
  function SlotRows(rows: nat, k: nat): (text: Composed)
    ensures Slots(text) == rows * k && Names(text) == []
  {
    var all := seq(rows, i => SlotRow(k));
    JoinSlots(all, Comma, k);
    JoinNames(all, Comma, NoNames(rows));
    FlattenEmpties(rows);
    JoinWith(all, Comma)
  }

  /** `INSERT INTO {table} ({columns}) VALUES {rows} RETURNING *`
      (db/utils.py:35-43 with one row, :266-274 with many). */
  function InsertText(table: string, columns: seq<string>, rows: nat): (text: Composed)
    ensures Slots(text) == rows * |columns|
    ensures Names(text) == [table] + columns
    ensures Last(text) == Some(ReturningAll)
  {
    Seq3(
      Seq3(Key(InsertInto), Name(table), Seq3(Key(Open), IdentList(columns), Key(Close))),
      Cat(Key(ValuesKw), SlotRows(rows, |columns|)),
      Key(ReturningAll))
  }

  /** One `{column} = %s` condition or assignment. */
  function Equation(column: string): (text: Composed)
    ensures Slots(text) == 1 && Names(text) == [column]
    ensures Where !in Fragments(text) && OrderBy !in Fragments(text)
  {
    Seq3(Name(column), Key(Equals), Hole())
  }

  /** One `{column} = %s` per column. */
  function EquationParts(columns: seq<string>): (parts: seq<Composed>)
    ensures |parts| == |columns|
    ensures forall i :: 0 <= i < |parts| ==>
      Slots(parts[i]) == 1 && Names(parts[i]) == Singletons(columns)[i] &&
      Where !in Fragments(parts[i]) && OrderBy !in Fragments(parts[i])
  {
    seq(|columns|, i requires 0 <= i < |columns| => Equation(columns[i]))
  }

  /** The conditions or assignments for `columns`, joined by `sep`. */
  function Equations(columns: seq<string>, sep: Fragment): (text: Composed)
    requires sep == And || sep == Comma
    ensures Slots(text) == |columns| && Names(text) == columns
    ensures Where !in Fragments(text) && OrderBy !in Fragments(text)
  {
    var parts := EquationParts(columns);
    JoinSlots(parts, sep, 1);
    JoinNames(parts, sep, Singletons(columns));
    FlattenSingletons(columns);
    JoinAvoids(parts, sep, Where);
    JoinAvoids(parts, sep, OrderBy);
    JoinWith(parts, sep)
  }

  /** `SELECT * FROM {table} WHERE id = %s` (db/utils.py:67-69). */
  function SelectByIdText(table: string): (text: Composed)
    ensures Slots(text) == 1 && Names(text) == [table]
  {
    Seq3(Key(SelectFrom), Name(table), Cat(Key(WhereIdEquals), Hole()))
  }

  /** The trailing `LIMIT %s OFFSET %s` of get_items. */
  function Window(): (text: Composed)
    ensures Slots(text) == 2 && Names(text) == []
    ensures Where !in Fragments(text) && OrderBy !in Fragments(text)
  {
    Cat(Cat(Key(Limit), Hole()), Cat(Key(OffsetKw), Hole()))
  }

  /** get_items' statement (db/utils.py:98-114): a WHERE part exactly when
      there are filter columns, an ORDER BY part exactly when an ordering
      column is given, and always the trailing window. */
  function SelectManyText(table: string, filterColumns: seq<string>, orderBy: Option<string>): (text: Composed)
    ensures Slots(text) == |filterColumns| + 2
    ensures Names(text) == [table] + filterColumns + Listed(orderBy)
    ensures Where in Fragments(text) <==> |filterColumns| > 0
    ensures OrderBy in Fragments(text) <==> orderBy.Some?
    ensures text.Then? && text.second == Window()
  {
    var head := Cat(Key(SelectFrom), Name(table));
    assert Names(head) == [table] by { assert [] + [table] == [table]; }
    var body := Seq3(head, FilterPart(filterColumns), OrderPart(orderBy));
    assert Names(body) + [] == Names(body);
    Cat(body, Window())
  }

  /** `WHERE {c1} = %s AND {c2} = %s ...`, or nothing without filters. */
  function FilterPart(columns: seq<string>): (text: Composed)
    ensures Slots(text) == |columns| && Names(text) == columns
    ensures OrderBy !in Fragments(text)
    ensures Where in Fragments(text) <==> |columns| > 0
  {
    if |columns| > 0 then Cat(Key(Where), Equations(columns, And)) else Empty
  }

  /** The value of an option as a list of zero or one elements. */
  function Listed<T>(o: Option<T>): seq<T> {
    if o.Some? then [o.value] else []
  }

  /** `ORDER BY {column}`, or nothing. */
  function OrderPart(orderBy: Option<string>): (text: Composed)
    ensures Slots(text) == 0 && Names(text) == Listed(orderBy)
    ensures Where !in Fragments(text)
    ensures OrderBy in Fragments(text) <==> orderBy.Some?
  {
    if orderBy.Some? then Cat(Key(OrderBy), Name(orderBy.value)) else Empty
  }

  /** `UPDATE {table} SET {assignments} WHERE id = %s RETURNING *`
      (db/utils.py:148-156). With no assignments the SET list is empty. */
  function UpdateText(table: string, columns: seq<string>): (text: Composed)
    ensures Slots(text) == |columns| + 1
    ensures Names(text) == [table] + columns
    ensures Last(text) == Some(ReturningAll)
  {
    Seq3(
      Seq3(Key(UpdateKw), Name(table), Cat(Key(SetKw), Equations(columns, Comma))),
      Cat(Key(WhereIdEquals), Hole()),
      Key(ReturningAll))
  }

  /** `DELETE FROM {table} WHERE id = %s RETURNING id` (db/utils.py:180-182). */
  function DeleteText(table: string): (text: Composed)
    ensures Slots(text) == 1 && Names(text) == [table]
    ensures Last(text) == Some(ReturningId)
  {
    Seq3(Key(DeleteFrom), Name(table), Cat(Cat(Key(WhereIdEquals), Hole()), Key(ReturningId)))
  }
}
