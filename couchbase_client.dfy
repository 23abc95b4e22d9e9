/** The Couchbase client of templates/api/src/backend/clients/couchbase.py:
    `CouchbaseConf`, and `CouchbaseClient` with its lifecycle state
    (`_cluster`, `_config`, `_initialized`) and its document operations.
    The documents the cluster holds are modelled as one map per keyspace;
    the connection, the query service and `uuid4` are inputs. */
module CouchbaseBackend {
  import opened Wrappers
  import opened Text
  import opened PyValue
  import opened Logging
  import opened Keyspaces
  import HelperClauses

  // ---------------------------------------------------------------------------
  // Configuration
  // ---------------------------------------------------------------------------

  datatype CouchbaseConf = CouchbaseConf(
    host: string, port: int, username: string, password: string, bucket: string, protocol: string)

  /** The dataclass constructor with `protocol` left at its default. */
  function DefaultConf(host: string, port: int, username: string, password: string, bucket: string): (c: CouchbaseConf)
    ensures c.protocol == "couchbase"
    ensures c.host == host && c.port == port && c.bucket == bucket
    ensures c.username == username && c.password == password
  {
    CouchbaseConf(host, port, username, password, bucket, "couchbase")
  }

  /** `get_connection_url`: `{protocol}://{host}:{port}`. */
  function ConnectionUrl(c: CouchbaseConf): string {
    c.protocol + "://" + c.host + ":" + IntToString(c.port)
  }

  /** When neither protocol nor host has a colon, the URL splits on `:` into
      the protocol, `//` and the host, and the port: each is recoverable, so
      different configurations give different URLs. */
  lemma ConnectionUrlParts(c: CouchbaseConf)
    requires ':' !in c.protocol && ':' !in c.host
    ensures Split(ConnectionUrl(c), ':') == [c.protocol, "//" + c.host, IntToString(c.port)]
  {
    var port := IntToString(c.port);
    IntToStringChars(c.port);
    assert ':' !in port;
    var parts := [c.protocol, "//" + c.host, port];
    assert parts[1..] == ["//" + c.host, port];
    assert parts[1..][1..] == [port];
    assert Join(parts[1..], ":") == "//" + c.host + ":" + port;
    assert Join(parts, ":") == c.protocol + ":" + ("//" + c.host + ":" + port);
    assert ConnectionUrl(c) == Join(parts, ":");
    SplitJoin(parts, ':');
  }

  /** The default configuration's URL, as the dataclass writes it. */
  lemma ConnectionUrlExample()
    ensures ConnectionUrl(DefaultConf("localhost", 8091, "u", "p", "b")) == "couchbase://localhost:8091"
  {
    assert "couchbase" + "://" + "localhost" + ":" + "8091" == "couchbase://localhost:8091";
    PortText();
  }

  lemma PortText()
    ensures IntToString(8091) == "8091"
  {
    assert NatToString(8091) == NatToString(809) + "1";
    assert NatToString(809) == NatToString(80) + "9";
    assert NatToString(80) == NatToString(8) + "0";
  }

  // ---------------------------------------------------------------------------
  // Client state
  // ---------------------------------------------------------------------------

  /** What a client operation raises. `SdkError` stands for any exception of the
      Couchbase SDK other than a missing or duplicate document. */
  datatype CbError =
    | ValueError(message: string)
    | RuntimeError(message: string)
    | DocumentExists(key: string)
    | SdkError(message: string)

  function ErrorText(e: CbError): string {
    match e
    case ValueError(m) => m
    case RuntimeError(m) => m
    case DocumentExists(k) => "document exists: " + k
    case SdkError(m) => m
  }

  /** `enabled` is the module constant `USE_COUCHBASE`; `cluster` identifies
      the connection `_create_cluster` made; `collections` is what the cluster
      stores, a keyspace missing from it being an empty collection. */
  datatype CbState = CbState(
    enabled: bool,
    cluster: Option<nat>,
    config: Option<CouchbaseConf>,
    initialized: bool,
    collections: map<Keyspace, map<string, Dict>>,
    log: seq<LogLine>)

  function Initial(enabled: bool, config: Option<CouchbaseConf>, collections: map<Keyspace, map<string, Dict>>): CbState {
    CbState(enabled, None, config, false, collections, [])
  }

  /** The invariant the lifecycle keeps: `_initialized` is set exactly when a
      cluster is held, and only when Couchbase is enabled and configured. */
  predicate Coherent(s: CbState) {
    (s.initialized <==> s.cluster.Some?) &&
    (s.initialized ==> s.enabled && s.config.Some?)
  }

  function Collection(s: CbState, keyspace: Keyspace): map<string, Dict> {
    if keyspace in s.collections then s.collections[keyspace] else map[]
  }

  function WithCollection(s: CbState, keyspace: Keyspace, c: map<string, Dict>): CbState {
    s.(collections := s.collections[keyspace := c])
  }

  const DisabledText := "Couchbase disabled in configuration"
  const DisabledError := "Couchbase is disabled in configuration"
  const NotInitializedError := "Couchbase client not initialized"
  const ConfRequired := "CouchbaseConf required when USE_COUCHBASE is True"
  const KeysMismatch := "Number of keys must match number of documents"

  /** `initialize`, given what `_create_cluster` does (a new connection or the
      exception it raises). */
  function InitializeState(s: CbState, connect: Result<nat, string>): (CbState, Outcome<CbError>) {
    if !s.enabled then (s.(log := s.log + [InfoLine(DisabledText)]), Pass)
    else if s.config.None? then (s, Fail(ValueError(ConfRequired)))
    else if connect.Failure? then (s, Fail(SdkError(connect.error)))
    else (s.(cluster := Some(connect.value), initialized := true,
             log := s.log + [InfoLine("Couchbase client initialized")]), Pass)
  }

  /** `close`: only a client that holds a cluster changes. */
  function CloseState(s: CbState): CbState {
    if s.cluster.Some? then
      s.(cluster := None, initialized := false, log := s.log + [InfoLine("Couchbase client closed")])
    else s
  }

  /** `_ensure_initialized`. */
  function EnsureInitialized(s: CbState): Outcome<CbError> {
    if !s.enabled then Fail(RuntimeError(DisabledError))
    else if !s.initialized || s.cluster.None? then Fail(RuntimeError(NotInitializedError))
    else Pass
  }

  predicate Ready(s: CbState) {
    EnsureInitialized(s).Pass?
  }

  lemma InitialCoherent(enabled: bool, config: Option<CouchbaseConf>, collections: map<Keyspace, map<string, Dict>>)
    ensures Coherent(Initial(enabled, config, collections))
    ensures !Ready(Initial(enabled, config, collections))
  {
  }

  /** After `initialize` the client is ready exactly when Couchbase is
      enabled, configured and the connection was made; when it is disabled
      only the log changes; a raised error changes nothing. The lifecycle
      invariant is kept. */
  lemma InitializeSpec(s: CbState, connect: Result<nat, string>)
    requires Coherent(s)
    ensures var (s', r) := InitializeState(s, connect);
      && Coherent(s')
      && s'.collections == s.collections && s'.config == s.config
      && (Ready(s') <==> Ready(s) || (s.enabled && s.config.Some? && connect.Success?))
      && (r.Fail? <==> s.enabled && (s.config.None? || connect.Failure?))
      && (r.Fail? ==> s' == s)
      && (!s.enabled ==> s' == s.(log := s'.log) && r == Pass)
      && (r == Fail(ValueError(ConfRequired)) <==> s.enabled && s.config.None?)
  {
  }

  /** After `close` no cluster is held and the client is not ready; a client
      without a cluster is left as it was. */
  lemma CloseSpec(s: CbState)
    requires Coherent(s)
    ensures var s' := CloseState(s);
      && Coherent(s') && !Ready(s') && s'.cluster.None? && !s'.initialized
      && s'.collections == s.collections && s'.config == s.config
      && (s.cluster.None? ==> s' == s)
      && CloseState(s') == s'
  {
  }

  /** `_ensure_initialized` passes exactly when Couchbase is enabled and the
      client initialised with a cluster; being disabled wins over not being
      initialised. */
  lemma EnsureInitializedSpec(s: CbState)
    ensures Ready(s) <==> s.enabled && s.initialized && s.cluster.Some?
    ensures !s.enabled ==> EnsureInitialized(s) == Fail(RuntimeError(DisabledError))
    ensures EnsureInitialized(s) == Fail(RuntimeError(NotInitializedError)) <==> s.enabled && !Ready(s)
  {
  }

  // ---------------------------------------------------------------------------
  // Reads
  // ---------------------------------------------------------------------------

  /** `get_cluster`. */
  function GetCluster(s: CbState): (r: Result<nat, CbError>)
    ensures r.Success? <==> Ready(s)
    ensures r.Success? ==> s.cluster == Some(r.value)
    ensures r.Failure? ==> Fail(r.error) == EnsureInitialized(s)
  {
    match EnsureInitialized(s)
    case Fail(e) => Failure(e)
    case Pass => Success(s.cluster.value)
  }

  /** `get_keyspace`: the bucket is the configured one when the argument is
      None (an empty name is kept; compare `CreateKeyspace`). */
  function GetKeyspace(s: CbState, collectionName: string, scopeName: string := "_default", bucketName: Option<string> := None): Result<Keyspace, CbError> {
    match EnsureInitialized(s)
    case Fail(e) => Failure(e)
    case Pass =>
      if bucketName.Some? then Success(Keyspace(bucketName.value, scopeName, collectionName))
      else if s.config.None? then Failure(SdkError("'NoneType' object has no attribute 'bucket'"))
      else Success(Keyspace(s.config.value.bucket, scopeName, collectionName))
  }

  lemma GetKeyspaceSpec(s: CbState, collectionName: string, scopeName: string, bucketName: Option<string>)
    requires Coherent(s)
    ensures var r := GetKeyspace(s, collectionName, scopeName, bucketName);
      && (r.Success? <==> Ready(s))
      && (r.Success? ==> r.value.collectionName == collectionName && r.value.scopeName == scopeName)
      && (r.Success? && bucketName.Some? ==> r.value.bucketName == bucketName.value)
      && (r.Success? && bucketName.None? ==> r.value.bucketName == s.config.value.bucket)
  {
  }

  /** With an empty bucket name the two helpers part ways: `get_keyspace`
      tests `is None`, `create_keyspace` tests truthiness. */
  lemma EmptyBucketNames(s: CbState)
    requires Ready(s)
    ensures GetKeyspace(s, "c", "_default", Some("")) == Success(Keyspace("", "_default", "c"))
    ensures CreateKeyspace("c", "_default", Some("")) == Keyspace("default", "_default", "c")
  {
  }

  /** `get_document`: None when the key is absent; a raised `_ensure_initialized`
      error is not caught. */
  function GetDocument(s: CbState, keyspace: Keyspace, key: string): Result<Option<Dict>, CbError> {
    match EnsureInitialized(s)
    case Fail(e) => Failure(e)
    case Pass => Success(if key in Collection(s, keyspace) then Some(Collection(s, keyspace)[key]) else None)
  }

  // ---------------------------------------------------------------------------
  // Writes
  // ---------------------------------------------------------------------------

  /** `insert_document`; `generated` is the `uuid4` used when no key is given. */
  function InsertDocumentState(s: CbState, keyspace: Keyspace, document: Dict, key: Option<string>, generated: string): (CbState, Result<string, CbError>) {
    var k := if key.Some? then key.value else generated;
    match EnsureInitialized(s)
    case Fail(e) => (s, Failure(e))
    case Pass =>
      if k in Collection(s, keyspace) then (s, Failure(DocumentExists(k)))
      else (WithCollection(s, keyspace, Collection(s, keyspace)[k := document]), Success(k))
  }

  /** `update_document` (`collection.replace`). */
  function UpdateDocumentState(s: CbState, keyspace: Keyspace, key: string, document: Dict): (CbState, Result<bool, CbError>) {
    match EnsureInitialized(s)
    case Fail(e) => (s, Failure(e))
    case Pass =>
      if key !in Collection(s, keyspace) then (s, Success(false))
      else (WithCollection(s, keyspace, Collection(s, keyspace)[key := document]), Success(true))
  }

  /** `upsert_document`. */
  function UpsertDocumentState(s: CbState, keyspace: Keyspace, key: string, document: Dict): (CbState, Result<string, CbError>) {
    match EnsureInitialized(s)
    case Fail(e) => (s, Failure(e))
    case Pass => (WithCollection(s, keyspace, Collection(s, keyspace)[key := document]), Success(key))
  }

  /** `delete_document` (`collection.remove`). */
  function DeleteDocumentState(s: CbState, keyspace: Keyspace, key: string): (CbState, Result<bool, CbError>) {
    match EnsureInitialized(s)
    case Fail(e) => (s, Failure(e))
    case Pass =>
      if key !in Collection(s, keyspace) then (s, Success(false))
      else (WithCollection(s, keyspace, Collection(s, keyspace) - {key}), Success(true))
  }

  /** On a ready client, `get_document` answers None exactly when the key is
      absent; inserting without a key stores the document under the generated
      key and returns it, and fails exactly when that key is taken. An
      operation on a client that is not ready raises and changes nothing. */
  lemma InsertGetSpec(s: CbState, keyspace: Keyspace, document: Dict, key: Option<string>, generated: string)
    ensures GetDocument(s, keyspace, generated).Success? <==> Ready(s)
    ensures Ready(s) ==> (GetDocument(s, keyspace, generated).value.None? <==> generated !in Collection(s, keyspace))
    ensures var (s', r) := InsertDocumentState(s, keyspace, document, key, generated);
      var k := if key.Some? then key.value else generated;
      && (!Ready(s) ==> s' == s && r.Failure?)
      && (Ready(s) ==> (r.Success? <==> k !in Collection(s, keyspace)))
      && (r.Success? ==> r.value == k && GetDocument(s', keyspace, k) == Success(Some(document)))
      && (r.Failure? ==> s' == s)
  {
  }

  /** `update_document` answers False exactly when the key is absent, and
      then writes nothing; otherwise the new document replaces the old one.
      Other keys and other keyspaces are untouched. */
  lemma UpdateSpec(s: CbState, keyspace: Keyspace, key: string, document: Dict)
    requires Ready(s)
    ensures var (s', r) := UpdateDocumentState(s, keyspace, key, document);
      && r.Success?
      && (r.value == false <==> key !in Collection(s, keyspace))
      && (r.value == false ==> s' == s)
      && (r.value ==> GetDocument(s', keyspace, key) == Success(Some(document)))
      && (forall k :: k != key ==> GetDocument(s', keyspace, k) == GetDocument(s, keyspace, k))
      && (forall other :: other != keyspace ==> Collection(s', other) == Collection(s, other))
  {
  }

  /** After an upsert the key holds the document whether or not it existed. */
  lemma UpsertSpec(s: CbState, keyspace: Keyspace, key: string, document: Dict)
    requires Ready(s)
    ensures var (s', r) := UpsertDocumentState(s, keyspace, key, document);
      && r == Success(key)
      && GetDocument(s', keyspace, key) == Success(Some(document))
      && (forall k :: k != key ==> GetDocument(s', keyspace, k) == GetDocument(s, keyspace, k))
  {
  }

  /** `delete_document` answers False exactly when the key is absent; after it
      the key is absent, so deleting the same key again answers False. */
  lemma DeleteSpec(s: CbState, keyspace: Keyspace, key: string)
    requires Ready(s)
    ensures var (s', r) := DeleteDocumentState(s, keyspace, key);
      && r.Success?
      && (r.value == false <==> key !in Collection(s, keyspace))
      && GetDocument(s', keyspace, key) == Success(None)
      && DeleteDocumentState(s', keyspace, key) == (s', Success(false))
      && (forall k :: k != key ==> GetDocument(s', keyspace, k) == GetDocument(s, keyspace, k))
  {
  }

  // ---------------------------------------------------------------------------
  // Queries
  // ---------------------------------------------------------------------------

  /** `query_documents`; `rows` is what the query service returns. */
  function QueryDocuments(s: CbState, query: string, rows: seq<Dict>): (r: Result<seq<Dict>, CbError>)
    ensures r.Success? <==> Ready(s)
    ensures r.Success? ==> r.value == rows
  {
    match EnsureInitialized(s)
    case Fail(e) => Failure(e)
    case Pass => Success(rows)
  }

  function From(keyspace: Keyspace): string {
    "`" + keyspace.bucketName + "`.`" + keyspace.scopeName + "`.`" + keyspace.collectionName + "`"
  }

  /** The keyspace is written as `format_couchbase_keyspace` writes it. */
  lemma FromFormatted(keyspace: Keyspace)
    ensures From(keyspace) == HelperClauses.FormatCouchbaseKeyspace(keyspace.bucketName, keyspace.scopeName, keyspace.collectionName)
  {
  }

  const ListSelect := "SELECT META().id, * FROM "

  /** The statement `list_documents` sends. */
  function ListQuery(keyspace: Keyspace, limit: Option<int>): string {
    ListSelect + From(keyspace) + (if limit.Some? then " LIMIT " + IntToString(limit.value) else "")
  }

  /** Without a limit the statement ends at the keyspace; with one it is that
      statement followed by ` LIMIT n`. */
  lemma ListQuerySpec(keyspace: Keyspace, limit: Option<int>)
    ensures ListQuery(keyspace, None) == ListSelect + HelperClauses.FormatCouchbaseKeyspace(keyspace.bucketName, keyspace.scopeName, keyspace.collectionName)
    ensures limit.Some? ==> ListQuery(keyspace, limit) == ListQuery(keyspace, None) + " LIMIT " + IntToString(limit.value)
    ensures limit.None? <==> EndsWith(ListQuery(keyspace, limit), "`")
  {
    if limit.Some? {
      var n := IntToString(limit.value);
      IntToStringChars(limit.value);
      assert |n| >= 1 && '`' != n[|n| - 1] by {
        assert n[|n| - 1] in n;
      }
      assert ListQuery(keyspace, limit)[|ListQuery(keyspace, limit)| - 1] == n[|n| - 1];
    }
  }

  /** `list_documents`. */
  function ListDocuments(s: CbState, keyspace: Keyspace, limit: Option<int>, rows: seq<Dict>): Result<seq<Dict>, CbError> {
    QueryDocuments(s, ListQuery(keyspace, limit), rows)
  }

  /** The statement `count_documents` sends. */
  function CountQuery(keyspace: Keyspace): string {
    "SELECT COUNT(*) as count FROM " + From(keyspace)
  }

  /** `count_documents`: `results[0]['count'] if results else 0`, a missing
      `count` column being a KeyError. */
  function CountDocuments(s: CbState, keyspace: Keyspace, rows: seq<Dict>): (r: Result<Value, CbError>)
    ensures r.Success? ==> Ready(s)
    ensures Ready(s) && rows == [] ==> r == Success(Int(0))
    ensures Ready(s) && rows != [] ==> (r.Success? <==> HasKey(rows[0], "count"))
    ensures r.Success? && rows != [] ==> Get(rows[0], "count") == Some(r.value)
  {
    var results :- QueryDocuments(s, CountQuery(keyspace), rows);
    if results == [] then Success(Int(0))
    else match Get(results[0], "count")
      case None => Failure(SdkError("KeyError: 'count'"))
      case Some(v) => Success(v)
  }

  // ---------------------------------------------------------------------------
  // bulk_insert
  // ---------------------------------------------------------------------------

  /** `collection.insert` for each pair in order; the run stops at the first
      key that is already present (DocumentExistsException), keeping the
      writes made before it. */
  function InsertAll(c: map<string, Dict>, keys: seq<string>, documents: seq<Dict>): (map<string, Dict>, Option<string>)
    requires |keys| == |documents|
    decreases |keys|
  {
    if keys == [] then (c, None)
    else if keys[0] in c then (c, Some(keys[0]))
    else InsertAll(c[keys[0] := documents[0]], keys[1..], documents[1..])
  }

  predicate Distinct(keys: seq<string>) {
    forall i, j :: 0 <= i < j < |keys| ==> keys[i] != keys[j]
  }

  /** Every insert succeeds exactly when the keys are distinct and none is in
      the collection yet. */
  lemma {:induction false} InsertAllSucceeds(c: map<string, Dict>, keys: seq<string>, documents: seq<Dict>)
    requires |keys| == |documents|
    ensures InsertAll(c, keys, documents).1.None? <==> Distinct(keys) && forall i :: 0 <= i < |keys| ==> keys[i] !in c
    decreases |keys|
  {
    if keys != [] && keys[0] !in c {
      var k, rest := keys[0], keys[1..];
      var c1 := c[k := documents[0]];
      InsertAllSucceeds(c1, rest, documents[1..]);
      assert forall i :: 1 <= i < |keys| ==> keys[i] == rest[i - 1];
      assert (forall i :: 0 <= i < |rest| ==> rest[i] !in c1)
         <==> (forall i :: 1 <= i < |keys| ==> keys[i] !in c && keys[i] != k);
    }
  }

  /** A key the run does not mention keeps its place in the collection and
      its document; a run that stops does so at one of its own keys. */
  lemma {:induction false} InsertAllFrame(c: map<string, Dict>, keys: seq<string>, documents: seq<Dict>)
    requires |keys| == |documents|
    ensures var (c', stopped) := InsertAll(c, keys, documents);
      && (forall k :: k !in keys ==> (k in c' <==> k in c) && (k in c ==> c'[k] == c[k]))
      && (stopped.Some? ==> stopped.value in keys)
    decreases |keys|
  {
    if keys != [] && keys[0] !in c {
      InsertAllFrame(c[keys[0] := documents[0]], keys[1..], documents[1..]);
      assert forall x :: x in keys[1..] ==> x in keys;
    }
  }

  /** When every insert succeeds, each key holds its document. */
  lemma {:induction false} InsertAllWrites(c: map<string, Dict>, keys: seq<string>, documents: seq<Dict>)
    requires |keys| == |documents|
    requires InsertAll(c, keys, documents).1.None?
    ensures forall i :: 0 <= i < |keys| ==> keys[i] in InsertAll(c, keys, documents).0 && InsertAll(c, keys, documents).0[keys[i]] == documents[i]
    decreases |keys|
  {
    if keys != [] {
      var k, rest := keys[0], keys[1..];
      var c1 := c[k := documents[0]];
      InsertAllWrites(c1, rest, documents[1..]);
      InsertAllSucceeds(c, keys, documents);
      InsertAllFrame(c1, rest, documents[1..]);
      assert k !in rest;
      assert forall i :: 1 <= i < |keys| ==> keys[i] == rest[i - 1] && documents[i] == documents[1..][i - 1];
    }
  }

  /** The keys `bulk_insert` uses: the given ones, or one generated key per
      document. */
  function BulkKeys(documents: seq<Dict>, keys: Option<seq<string>>, uuid: nat -> string): seq<string> {
    if keys.Some? then keys.value else seq(|documents|, i requires 0 <= i => uuid(i))
  }

  /** `bulk_insert`; `uuid(i)` is the key generated for the i-th document. */
  function BulkInsertState(s: CbState, keyspace: Keyspace, documents: seq<Dict>, keys: Option<seq<string>>, uuid: nat -> string): (CbState, Result<seq<string>, CbError>) {
    var ks := BulkKeys(documents, keys, uuid);
    if |ks| != |documents| then (s, Failure(ValueError(KeysMismatch)))
    else match EnsureInitialized(s)
      case Fail(e) => (s, Failure(e))
      case Pass =>
        var (c', stopped) := InsertAll(Collection(s, keyspace), ks, documents);
        var s' := WithCollection(s, keyspace, c');
        if stopped.Some? then (s', Failure(DocumentExists(stopped.value))) else (s', Success(ks))
  }

  /** A length mismatch raises before anything is written; without keys one
      key is generated per document; a successful run returns the keys in the
      given order, each holding its document. */
  lemma BulkInsertSpec(s: CbState, keyspace: Keyspace, documents: seq<Dict>, keys: Option<seq<string>>, uuid: nat -> string)
    ensures var (s', r) := BulkInsertState(s, keyspace, documents, keys, uuid);
      && (keys.Some? && |keys.value| != |documents| ==> s' == s && r == Failure(ValueError(KeysMismatch)))
      && (keys.None? ==> |BulkKeys(documents, keys, uuid)| == |documents|)
      && (!Ready(s) ==> s' == s && r.Failure?)
      && (r.Success? ==> r.value == BulkKeys(documents, keys, uuid))
      && (r.Success? ==> forall i :: 0 <= i < |documents| ==> GetDocument(s', keyspace, r.value[i]) == Success(Some(documents[i])))
  {
    var ks := BulkKeys(documents, keys, uuid);
    if |ks| == |documents| && Ready(s) {
      var (c', stopped) := InsertAll(Collection(s, keyspace), ks, documents);
      if stopped.None? {
        InsertAllWrites(Collection(s, keyspace), ks, documents);
        assert Collection(WithCollection(s, keyspace, c'), keyspace) == c';
      }
    }
  }

  // ---------------------------------------------------------------------------
  // health_check
  // ---------------------------------------------------------------------------

  /** `health_check`, given what pinging the configured bucket does. */
  function HealthCheckState(s: CbState, ping: Outcome<string>): (CbState, bool) {
    if !s.enabled then (s, false)
    else match EnsureInitialized(s)
      case Fail(e) => (s.(log := s.log + [ErrorLine("Health check failed: " + ErrorText(e))]), false)
      case Pass =>
        if ping.Fail? then (s.(log := s.log + [ErrorLine("Health check failed: " + ping.error)]), false)
        else (s, true)
  }

  /** Healthy exactly when the client is ready and the ping answers; a failed
      check logs one error line, and nothing but the log changes. */
  lemma HealthCheckSpec(s: CbState, ping: Outcome<string>)
    ensures var (s', healthy) := HealthCheckState(s, ping);
      && (healthy <==> Ready(s) && ping.Pass?)
      && s'.(log := s.log) == s
      && (healthy || !s.enabled ==> s'.log == s.log)
      && (!healthy && s.enabled ==> |s'.log| == |s.log| + 1 && s'.log[|s.log|].level == Error)
  {
  }

  // ---------------------------------------------------------------------------
  // The client object
  // ---------------------------------------------------------------------------

  /** `CouchbaseClient`: the methods that assign its fields or write to the
      cluster. The reads above are functions of `Snapshot()`. */
  class Client {
    const enabled: bool
    var cluster: Option<nat>
    var config: Option<CouchbaseConf>
    var initialized: bool
    var collections: map<Keyspace, map<string, Dict>>
    var log: seq<LogLine>

    function Snapshot(): CbState
      reads this
    {
      CbState(enabled, cluster, config, initialized, collections, log)
    }

    /** `CouchbaseClient(config)`, on a cluster holding `collections`. */
    constructor(useCouchbase: bool, config: Option<CouchbaseConf>, collections: map<Keyspace, map<string, Dict>>)
      ensures Snapshot() == Initial(useCouchbase, config, collections)
    {
      enabled := useCouchbase;
      cluster, this.config, initialized := None, config, false;
      this.collections, log := collections, [];
    }

    method Initialize(connect: Result<nat, string>) returns (r: Outcome<CbError>)
      modifies this
      ensures (Snapshot(), r) == InitializeState(old(Snapshot()), connect)
    {
      if !enabled {
        log := log + [InfoLine(DisabledText)];
        return Pass;
      }
      if config.None? {
        return Fail(ValueError(ConfRequired));
      }
      if connect.Failure? {
        return Fail(SdkError(connect.error));
      }
      cluster := Some(connect.value);
      initialized := true;
      log := log + [InfoLine("Couchbase client initialized")];
      return Pass;
    }

    method Close()
      modifies this
      ensures Snapshot() == CloseState(old(Snapshot()))
    {
      if cluster.Some? {
        cluster := None;
        initialized := false;
        log := log + [InfoLine("Couchbase client closed")];
      }
    }

    method InsertDocument(keyspace: Keyspace, document: Dict, key: Option<string>, generated: string) returns (r: Result<string, CbError>)
      modifies this
      ensures (Snapshot(), r) == InsertDocumentState(old(Snapshot()), keyspace, document, key, generated)
    {
      var k := if key.Some? then key.value else generated;
      var ready := EnsureInitialized(Snapshot());
      if ready.Fail? {
        return Failure(ready.error);
      }
      var c := Collection(Snapshot(), keyspace);
      if k in c {
        return Failure(DocumentExists(k));
      }
      collections := collections[keyspace := c[k := document]];
      return Success(k);
    }

    method UpdateDocument(keyspace: Keyspace, key: string, document: Dict) returns (r: Result<bool, CbError>)
      modifies this
      ensures (Snapshot(), r) == UpdateDocumentState(old(Snapshot()), keyspace, key, document)
    {
      var ready := EnsureInitialized(Snapshot());
      if ready.Fail? {
        return Failure(ready.error);
      }
      var c := Collection(Snapshot(), keyspace);
      if key !in c {
        return Success(false);
      }
      collections := collections[keyspace := c[key := document]];
      return Success(true);
    }

    method UpsertDocument(keyspace: Keyspace, key: string, document: Dict) returns (r: Result<string, CbError>)
      modifies this
      ensures (Snapshot(), r) == UpsertDocumentState(old(Snapshot()), keyspace, key, document)
    {
      var ready := EnsureInitialized(Snapshot());
      if ready.Fail? {
        return Failure(ready.error);
      }
      collections := collections[keyspace := Collection(Snapshot(), keyspace)[key := document]];
      return Success(key);
    }

    method DeleteDocument(keyspace: Keyspace, key: string) returns (r: Result<bool, CbError>)
      modifies this
      ensures (Snapshot(), r) == DeleteDocumentState(old(Snapshot()), keyspace, key)
    {
      var ready := EnsureInitialized(Snapshot());
      if ready.Fail? {
        return Failure(ready.error);
      }
      var c := Collection(Snapshot(), keyspace);
      if key !in c {
        return Success(false);
      }
      collections := collections[keyspace := c - {key}];
      return Success(true);
    }

    /** `bulk_insert`: each `collection.insert` is written to the cluster as it
        is made. */
    method BulkInsert(keyspace: Keyspace, documents: seq<Dict>, keys: Option<seq<string>>, uuid: nat -> string) returns (r: Result<seq<string>, CbError>)
      modifies this
      ensures (Snapshot(), r) == BulkInsertState(old(Snapshot()), keyspace, documents, keys, uuid)
    {
      var ks := BulkKeys(documents, keys, uuid);
      if |ks| != |documents| {
        return Failure(ValueError(KeysMismatch));
      }
      var ready := EnsureInitialized(Snapshot());
      if ready.Fail? {
        return Failure(ready.error);
      }
      ghost var s0 := Snapshot();
      var c := Collection(Snapshot(), keyspace);
      ghost var start := c;
      var i := 0;
      while i < |ks|
        invariant 0 <= i <= |ks|
        invariant InsertAll(c, ks[i..], documents[i..]) == InsertAll(start, ks, documents)
        invariant collections == if i == 0 then old(collections) else old(collections)[keyspace := c]
        invariant cluster == old(cluster) && config == old(config) && initialized == old(initialized) && log == old(log)
      {
        assert ks[i..][0] == ks[i];
        if ks[i] in c {
          assert InsertAll(c, ks[i..], documents[i..]) == (c, Some(ks[i]));
          collections := collections[keyspace := c];
          assert Snapshot() == WithCollection(s0, keyspace, c);
          return Failure(DocumentExists(ks[i]));
        }
        assert ks[i..][1..] == ks[i + 1..] && documents[i..][1..] == documents[i + 1..];
        c := c[ks[i] := documents[i]];
        collections := collections[keyspace := c];
        i := i + 1;
      }
      assert ks[i..] == [];
      assert InsertAll(start, ks, documents) == (c, None);
      collections := collections[keyspace := c];
      assert Snapshot() == WithCollection(s0, keyspace, c);
      return Success(ks);
    }

    method HealthCheck(ping: Outcome<string>) returns (healthy: bool)
      modifies this
      ensures (Snapshot(), healthy) == HealthCheckState(old(Snapshot()), ping)
    {
      if !enabled {
        return false;
      }
      var ready := EnsureInitialized(Snapshot());
      if ready.Fail? {
        log := log + [ErrorLine("Health check failed: " + ErrorText(ready.error))];
        return false;
      }
      if ping.Fail? {
        log := log + [ErrorLine("Health check failed: " + ping.error)];
        return false;
      }
      return true;
    }
  }
}
