/** The query-fragment builders of templates/api/src/utils/helpers.py:
    build_where_clause, build_update_clause, build_n1ql_where_clause and
    format_couchbase_keyspace. They build plain text with named placeholders
    (`%(key)s` for SQL, `$field` for N1QL) and a dict of parameter values. */
module HelperClauses {
  import opened Wrappers
  import opened PyValue
  import opened Text

  /** `f"{qualifier}."` when the qualifier is non-empty, else nothing. */
  function Prefix(qualifier: string): string {
    if qualifier == "" then "" else qualifier + "."
  }

  // ---------------------------------------------------------------------------
  // build_where_clause / build_update_clause
  // ---------------------------------------------------------------------------

  /** `f"{stem}{i}"`: `param_0`, `param_1`, ... or `update_param_0`, ... */
  function ParamKey(stem: string, i: nat): string {
    stem + NatToString(i)
  }

  lemma ParamKeyInjective(stem: string, i: nat, j: nat)
    requires ParamKey(stem, i) == ParamKey(stem, j)
    ensures i == j
  {
    assert NatToString(i) == ParamKey(stem, i)[|stem|..];
    assert NatToString(j) == ParamKey(stem, j)[|stem|..];
    NatToStringInjective(i, j);
  }

  /** `f"{prefix}{column} = %({key})s"` */
  function SqlCondition(prefix: string, column: string, key: string): string {
    prefix + column + " = %(" + key + ")s"
  }

  /** One condition per entry, the i-th naming parameter `{stem}{i}`. */
  function SqlClauses(data: Dict, prefix: string, stem: string): (cs: seq<string>)
    ensures |cs| == |data|
    decreases |data|
  {
    if data == [] then []
    else SqlClauses(data[..|data| - 1], prefix, stem) + [SqlCondition(prefix, data[|data| - 1].0, ParamKey(stem, |data| - 1))]
  }

  /** Parameter `{stem}{i}` bound to the i-th value. */
  function SqlParams(data: Dict, stem: string): (ps: Dict)
    ensures |ps| == |data|
    decreases |data|
  {
    if data == [] then []
    else SqlParams(data[..|data| - 1], stem) + [(ParamKey(stem, |data| - 1), data[|data| - 1].1)]
  }

  lemma {:induction false} SqlClausesAt(data: Dict, prefix: string, stem: string, i: nat)
    requires i < |data|
    ensures SqlClauses(data, prefix, stem)[i] == SqlCondition(prefix, data[i].0, ParamKey(stem, i))
    decreases |data|
  {
    if i < |data| - 1 {
      SqlClausesAt(data[..|data| - 1], prefix, stem, i);
    }
  }

  lemma {:induction false} SqlParamsAt(data: Dict, stem: string, i: nat)
    requires i < |data|
    ensures SqlParams(data, stem)[i] == (ParamKey(stem, i), data[i].1)
    decreases |data|
  {
    if i < |data| - 1 {
      SqlParamsAt(data[..|data| - 1], stem, i);
    }
  }

  /** The generated parameter names are all different. */
  lemma SqlParamsUnique(data: Dict, stem: string)
    ensures UniqueKeys(SqlParams(data, stem))
  {
    var ps := SqlParams(data, stem);
    forall i, j | 0 <= i < j < |ps| ensures Keys(ps)[i] != Keys(ps)[j] {
      SqlParamsAt(data, stem, i);
      SqlParamsAt(data, stem, j);
      if ParamKey(stem, i) == ParamKey(stem, j) {
        ParamKeyInjective(stem, i, j);
      }
    }
  }

  /** The placeholder of the i-th condition names the i-th column, and looking
      it up in the parameters gives the i-th value. */
  lemma SqlPlaceholderResolves(data: Dict, prefix: string, stem: string, i: nat)
    requires i < |data|
    ensures var key := ParamKey(stem, i);
      && SqlClauses(data, prefix, stem)[i] == SqlCondition(prefix, data[i].0, key)
      && Get(SqlParams(data, stem), key) == Some(data[i].1)
  {
    SqlClausesAt(data, prefix, stem, i);
    SqlParamsAt(data, stem, i);
    SqlParamsUnique(data, stem);
    GetAt(SqlParams(data, stem), i);
  }

  lemma SqlParamsFresh(data: Dict, stem: string, i: nat)
    requires i < |data|
    ensures !HasKey(SqlParams(data[..i], stem), ParamKey(stem, i))
  {
    var ps := SqlParams(data[..i], stem);
    forall m | 0 <= m < |ps| ensures Keys(ps)[m] != ParamKey(stem, i) {
      SqlParamsAt(data[..i], stem, m);
      if ParamKey(stem, m) == ParamKey(stem, i) {
        ParamKeyInjective(stem, m, i);
      }
    }
  }

  /** The loop both SQL builders run: one condition and one parameter per
      entry, in order, the conditions joined by `separator`. Empty input gives
      `("", {})`. */
  method BuildClauses(data: Dict, tablePrefix: string, stem: string, separator: string)
    returns (clause: string, params: Dict)
    ensures clause == Join(SqlClauses(data, Prefix(tablePrefix), stem), separator)
    ensures params == SqlParams(data, stem)
  {
    if |data| == 0 {
      return "", [];
    }
    var prefix := Prefix(tablePrefix);
    var clauses: seq<string> := [];
    params := [];
    for i := 0 to |data|
      invariant clauses == SqlClauses(data[..i], prefix, stem)
      invariant params == SqlParams(data[..i], stem)
    {
      var (column, value) := data[i];
      var key := ParamKey(stem, i);
      assert data[..i + 1][..i] == data[..i];
      clauses := clauses + [SqlCondition(prefix, column, key)];
      SqlParamsFresh(data, stem, i);
      PutNew(params, key, value);
      params := Put(params, key, value);
    }
    assert data[..|data|] == data;
    clause := Join(clauses, separator);
  }

  /** build_where_clause: conditions `{prefix}{column} = %(param_i)s` joined
      by ` AND `. */
  method BuildWhereClause(conditions: Dict, tablePrefix: string := "") returns (clause: string, params: Dict)
    ensures clause == Join(SqlClauses(conditions, Prefix(tablePrefix), "param_"), " AND ")
    ensures params == SqlParams(conditions, "param_")
  {
    clause, params := BuildClauses(conditions, tablePrefix, "param_", " AND ");
  }

  /** build_update_clause: assignments `{prefix}{column} = %(update_param_i)s`
      joined by `, `. */
  method BuildUpdateClause(data: Dict, tablePrefix: string := "") returns (clause: string, params: Dict)
    ensures clause == Join(SqlClauses(data, Prefix(tablePrefix), "update_param_"), ", ")
    ensures params == SqlParams(data, "update_param_")
  {
    clause, params := BuildClauses(data, tablePrefix, "update_param_", ", ");
  }

  /** Empty input gives an empty clause and no parameters. */
  lemma ClausesEmpty(prefix: string, stem: string, separator: string)
    ensures Join(SqlClauses([], prefix, stem), separator) == "" && SqlParams([], stem) == []
  {
  }

  lemma WhereExampleConditions()
    ensures SqlClauses([("name", Str("John")), ("age", Int(25))], "", "param_")
         == ["name = %(param_0)s", "age = %(param_1)s"]
  {
    var conditions := [("name", Str("John")), ("age", Int(25))];
    assert ParamKey("param_", 0) == "param_0" && ParamKey("param_", 1) == "param_1";
    var first := conditions[..1];
    assert first == [("name", Str("John"))] && first[..0] == [];
    assert SqlCondition("", "name", ParamKey("param_", 0)) == "name = %(param_0)s";
    assert SqlCondition("", "age", ParamKey("param_", 1)) == "age = %(param_1)s";
    assert SqlClauses(first, "", "param_") == ["name = %(param_0)s"];
  }

  /** The documented example of build_where_clause: the clause text ... */
  lemma WhereClauseExample()
    ensures Join(SqlClauses([("name", Str("John")), ("age", Int(25))], Prefix(""), "param_"), " AND ")
         == "name = %(param_0)s AND age = %(param_1)s"
  {
    WhereExampleConditions();
    var cs := ["name = %(param_0)s", "age = %(param_1)s"];
    assert cs[1..] == ["age = %(param_1)s"];
    assert Join(cs, " AND ") == "name = %(param_0)s" + " AND " + "age = %(param_1)s";
  }

  /** ... and its parameters. */
  lemma WhereParamsExample()
    ensures SqlParams([("name", Str("John")), ("age", Int(25))], "param_")
         == [("param_0", Str("John")), ("param_1", Int(25))]
  {
    var conditions := [("name", Str("John")), ("age", Int(25))];
    assert ParamKey("param_", 0) == "param_0" && ParamKey("param_", 1) == "param_1";
    var first := conditions[..1];
    assert first == [("name", Str("John"))] && first[..0] == [];
    assert SqlParams(first, "param_") == [("param_0", Str("John"))];
  }

  // ---------------------------------------------------------------------------
  // build_n1ql_where_clause
  // ---------------------------------------------------------------------------

  /** `f"{prefix}{field} = ${field}"` */
  function N1qlCondition(prefix: string, field: string): string {
    prefix + field + " = $" + field
  }

  function N1qlClauses(data: Dict, prefix: string): (cs: seq<string>)
    ensures |cs| == |data|
    decreases |data|
  {
    if data == [] then [] else N1qlClauses(data[..|data| - 1], prefix) + [N1qlCondition(prefix, data[|data| - 1].0)]
  }

  lemma {:induction false} N1qlClausesAt(data: Dict, prefix: string, i: nat)
    requires i < |data|
    ensures N1qlClauses(data, prefix)[i] == N1qlCondition(prefix, data[i].0)
    decreases |data|
  {
    if i < |data| - 1 {
      N1qlClausesAt(data[..|data| - 1], prefix, i);
    }
  }

  /** In a dict, the next key is not among the earlier ones. */
  lemma PrefixLacksNext(d: Dict, i: nat)
    requires UniqueKeys(d) && i < |d|
    ensures !HasKey(d[..i], d[i].0)
  {
    forall m | 0 <= m < i ensures Keys(d[..i])[m] != d[i].0 {
      assert Keys(d[..i])[m] == Keys(d)[m];
    }
  }

  /** build_n1ql_where_clause: one `field = $field` condition per entry, and
      each named parameter is the field itself, so the parameters are the
      conditions dict as it was. */
  method BuildN1qlWhereClause(conditions: Dict, keyspace: string := "") returns (clause: string, params: Dict)
    requires UniqueKeys(conditions)
    ensures clause == Join(N1qlClauses(conditions, Prefix(keyspace)), " AND ")
    ensures params == conditions
  {
    if |conditions| == 0 {
      return "", [];
    }
    var prefix := Prefix(keyspace);
    var clauses: seq<string> := [];
    params := [];
    for i := 0 to |conditions|
      invariant clauses == N1qlClauses(conditions[..i], prefix)
      invariant params == conditions[..i]
    {
      var (field, value) := conditions[i];
      assert conditions[..i + 1] == conditions[..i] + [(field, value)];
      assert conditions[..i + 1][..i] == conditions[..i];
      clauses := clauses + [N1qlCondition(prefix, field)];
      PrefixLacksNext(conditions, i);
      PutNew(params, field, value);
      params := Put(params, field, value);
    }
    assert conditions[..|conditions|] == conditions;
    clause := Join(clauses, " AND ");
  }

  /** Each `$field` placeholder is bound to that field's value. */
  lemma N1qlPlaceholderResolves(conditions: Dict, prefix: string, i: nat)
    requires UniqueKeys(conditions) && i < |conditions|
    ensures N1qlClauses(conditions, prefix)[i] == N1qlCondition(prefix, conditions[i].0)
    ensures Get(conditions, conditions[i].0) == Some(conditions[i].1)
  {
    N1qlClausesAt(conditions, prefix, i);
    GetAt(conditions, i);
  }

  // ---------------------------------------------------------------------------
  // format_couchbase_keyspace
  // ---------------------------------------------------------------------------

  function Quoted(name: string): string {
    "`" + name + "`"
  }

  /** `` `bucket`.`scope`.`collection` ``, scope and collection defaulting to
      `_default`. */
  function FormatCouchbaseKeyspace(bucket: string, scope: string := "_default", collection: string := "_default"): string {
    Quoted(bucket) + "." + Quoted(scope) + "." + Quoted(collection)
  }

  /** With dot-free names the three quoted names are the dot-separated parts,
      which makes the format injective. */
  lemma FormatKeyspaceParts(bucket: string, scope: string, collection: string)
    requires '.' !in bucket && '.' !in scope && '.' !in collection
    ensures Split(FormatCouchbaseKeyspace(bucket, scope, collection), '.')
         == [Quoted(bucket), Quoted(scope), Quoted(collection)]
  {
    var parts := [Quoted(bucket), Quoted(scope), Quoted(collection)];
    assert parts[1..][1..] == [Quoted(collection)];
    assert Join(parts[1..], ".") == Quoted(scope) + "." + Quoted(collection);
    assert Join(parts, ".") == FormatCouchbaseKeyspace(bucket, scope, collection);
    SplitJoin(parts, '.');
  }

  lemma FormatKeyspaceInjective(b: string, s: string, c: string, b': string, s': string, c': string)
    requires '.' !in b && '.' !in s && '.' !in c && '.' !in b' && '.' !in s' && '.' !in c'
    requires FormatCouchbaseKeyspace(b, s, c) == FormatCouchbaseKeyspace(b', s', c')
    ensures b == b' && s == s' && c == c'
  {
    FormatKeyspaceParts(b, s, c);
    FormatKeyspaceParts(b', s', c');
    assert Quoted(b) == Quoted(b') && Quoted(s) == Quoted(s') && Quoted(c) == Quoted(c');
    assert b == Quoted(b)[1..|Quoted(b)| - 1] && b' == Quoted(b')[1..|Quoted(b')| - 1];
    assert s == Quoted(s)[1..|Quoted(s)| - 1] && s' == Quoted(s')[1..|Quoted(s')| - 1];
    assert c == Quoted(c)[1..|Quoted(c)| - 1] && c' == Quoted(c')[1..|Quoted(c')| - 1];
  }
}
