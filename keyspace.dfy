/** `Keyspace` (`bucket.scope.collection`) as templates/api/src/backend/clients/couchbase.py
    and the two identical couchbase_client.py files define it, and their
    `create_keyspace` helper. */
module Keyspaces {
  import opened Wrappers
  import opened Text

  datatype Keyspace = Keyspace(bucketName: string, scopeName: string, collectionName: string)

  /** `Keyspace.from_string`: the string must split on `.` into exactly three
      parts; anything else is a `ValueError`. */
  function FromString(keyspace: string): Result<Keyspace, string> {
    var parts := Split(keyspace, '.');
    if |parts| != 3 then
      Failure("Invalid keyspace format. Expected 'bucket_name.scope_name.collection_name', got '" + keyspace + "'")
    else Success(Keyspace(parts[0], parts[1], parts[2]))
  }

  /** `str(keyspace)`. */
  function ToString(k: Keyspace): string {
    k.bucketName + "." + k.scopeName + "." + k.collectionName
  }

  predicate DotFree(k: Keyspace) {
    '.' !in k.bucketName && '.' !in k.scopeName && '.' !in k.collectionName
  }

  /** Parsing succeeds exactly on strings with two dots, and then yields
      dot-free names. */
  lemma FromStringSucceeds(keyspace: string)
    ensures FromString(keyspace).Success? <==> Occurrences(keyspace, '.') == 2
    ensures FromString(keyspace).Success? ==> DotFree(FromString(keyspace).value)
  {
    SplitCount(keyspace, '.');
    SplitPartsFree(keyspace, '.');
  }

  lemma JoinThree(a: string, b: string, c: string)
    ensures Join([a, b, c], ".") == a + "." + b + "." + c
  {
    assert [a, b, c][1..] == [b, c];
    assert [b, c][1..] == [c];
    assert Join([b, c], ".") == b + "." + c;
    assert Join([a, b, c], ".") == a + "." + (b + "." + c);
  }

  /** Printing a parsed keyspace gives the string back. */
  lemma PrintParsed(keyspace: string)
    requires FromString(keyspace).Success?
    ensures ToString(FromString(keyspace).value) == keyspace
  {
    var parts := Split(keyspace, '.');
    JoinSplit(keyspace, '.');
    assert parts == [parts[0], parts[1], parts[2]];
    JoinThree(parts[0], parts[1], parts[2]);
  }

  /** Parsing a printed keyspace gives it back when no name has a dot. */
  lemma ParsePrinted(k: Keyspace)
    requires DotFree(k)
    ensures FromString(ToString(k)) == Success(k)
  {
    var parts := [k.bucketName, k.scopeName, k.collectionName];
    JoinThree(k.bucketName, k.scopeName, k.collectionName);
    SplitJoin(parts, '.');
  }

  /** With a dot in a name the round trip fails: ``a.b`` as a bucket name
      prints to a string with four parts. */
  lemma ParsePrintedNeedsDotFree()
    ensures FromString(ToString(Keyspace("a.b", "s", "c"))).Failure?
  {
    var s := ToString(Keyspace("a.b", "s", "c"));
    assert s == "a" + ['.'] + ("b" + ['.'] + ("s" + ['.'] + "c"));
    SplitWithout("c", '.');
    SplitAfter("s", '.', "c");
    SplitAfter("b", '.', "s" + ['.'] + "c");
    SplitAfter("a", '.', "b" + ['.'] + ("s" + ['.'] + "c"));
  }

  /** `create_keyspace`: `bucket_name or "default"`, so a missing or empty
      bucket name becomes `default`; the scope defaults to `_default`. */
  function CreateKeyspace(collectionName: string, scopeName: string := "_default", bucketName: Option<string> := None): (k: Keyspace)
    ensures k.collectionName == collectionName && k.scopeName == scopeName
    ensures k.bucketName == "default" <==> bucketName.None? || bucketName.value in {"", "default"}
    ensures bucketName.Some? && bucketName.value != "" ==> k.bucketName == bucketName.value
  {
    var bucket := if bucketName.Some? && bucketName.value != "" then bucketName.value else "default";
    Keyspace(bucket, scopeName, collectionName)
  }

  /** The stubbed `CouchbaseClient` of both couchbase_client.py copies: its
      constructor sets `_cluster` and `_config` to None and nothing assigns
      them again. */
  datatype StubClient = StubClient(hasCluster: bool, hasConfig: bool)

  function NewStub(): StubClient { StubClient(false, false) }

  /** The data-access methods, every one of which raises. */
  datatype StubCall =
    | GetCluster | GetKeyspace | GetCollection
    | InsertDocument | GetDocument | UpdateDocument | UpsertDocument | DeleteDocument
    | QueryDocuments | ListDocuments | CountDocuments | BulkInsert

  datatype StubEvent = Initialize | Close | Invoke(call: StubCall) | HealthCheck

  /** What a call answers: returns normally, raises, or reports health. */
  datatype StubReply = Done | Raised(error: string) | Health(healthy: bool)

  const NotEnabled := "Couchbase client not enabled. Uncomment code to use."

  /** One call on the stub: `initialize` and `close` are `pass`, a data
      method raises NotImplementedError, `health_check` returns False. */
  function StubStep(c: StubClient, e: StubEvent): (StubClient, StubReply) {
    match e
    case Initialize => (c, Done)
    case Close => (c, Done)
    case Invoke(_) => (c, Raised(NotEnabled))
    case HealthCheck => (c, Health(false))
  }

  /** A sequence of calls on one client, with the reply to each. */
  function StubRun(c: StubClient, es: seq<StubEvent>): (StubClient, seq<StubReply>)
    decreases |es|
  {
    if es == [] then (c, [])
    else
      var (c1, reply) := StubStep(c, es[0]);
      var (c2, replies) := StubRun(c1, es[1..]);
      (c2, [reply] + replies)
  }

  /** Whatever is called in whatever order, the stub's fields never change,
      every data method raises the same NotImplementedError, and the health
      check is never true. */
  lemma {:induction false} StubRunInert(c: StubClient, es: seq<StubEvent>)
    ensures StubRun(c, es).0 == c
    ensures |StubRun(c, es).1| == |es|
    ensures forall i :: 0 <= i < |es| ==>
      StubRun(c, es).1[i] != Health(true) &&
      (StubRun(c, es).1[i].Raised? <==> es[i].Invoke?) &&
      (es[i].Invoke? ==> StubRun(c, es).1[i] == Raised(NotEnabled))
    decreases |es|
  {
    if es != [] {
      StubRunInert(c, es[1..]);
      var replies := StubRun(c, es).1;
      assert forall i :: 1 <= i < |es| ==> replies[i] == StubRun(c, es[1..]).1[i - 1] && es[i] == es[1..][i - 1];
    }
  }
}
