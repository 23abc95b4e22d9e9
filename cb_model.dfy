/** `CouchbaseModel` of the couchbase-client library
    (templates/lib/py/couchbase-client/src/couchbase_client/model.py): the
    collection name a model class uses, the requests its `initialize`, `get`,
    `upsert`, `delete` and `list` send, and what `cls(**doc)` makes of a
    stored document. The library's client module is not part of this model:
    the keyspace its `get_keyspace` returns and the rows `query_documents`
    answers are inputs, and its documents are a map from keyspace and key
    that `upsert_document` writes and `delete_document` removes. */
module CouchbaseModels {
  import opened Wrappers
  import opened Text
  import opened PyValue
  import opened Keyspaces
  import Seeder

  /** A model class: its `__name__` and its `collection_name` class variable
      (empty unless the subclass sets it). */
  datatype ModelClass = ModelClass(className: string, collectionName: string)

  // ---------------------------------------------------------------------------
  // _get_collection_name
  // ---------------------------------------------------------------------------

  predicate LowerOrDigit(c: char) { IsLower(c) || IsDigit(c) }

  /** `re.sub('([a-z0-9])([A-Z])', r'\1_\2', s)`: scanning left to right, a
      lowercase letter or digit followed by an uppercase letter gets an
      underscore between them, and the scan resumes after the pair. */
  function SplitWords(s: string): (r: string)
    ensures |r| >= |s|
    decreases |s|
  {
    if |s| >= 2 && LowerOrDigit(s[0]) && IsUpper(s[1]) then [s[0], '_', s[1]] + SplitWords(s[2..])
    else if s == [] then []
    else [s[0]] + SplitWords(s[1..])
  }

  /** The characters other than underscores. */
  function Letters(s: string): string
    decreases |s|
  {
    if s == [] then [] else (if s[0] == '_' then [] else [s[0]]) + Letters(s[1..])
  }

  /** The substitution only inserts underscores: dropping every underscore
      from its result and from its input gives the same text. */
  lemma {:induction false} SplitWordsInserts(s: string)
    ensures Letters(SplitWords(s)) == Letters(s)
    decreases |s|
  {
    if |s| >= 2 && LowerOrDigit(s[0]) && IsUpper(s[1]) {
      var t := SplitWords(s[2..]);
      var r := [s[0], '_', s[1]] + t;
      assert r[1..] == ['_', s[1]] + t;
      assert r[1..][1..] == [s[1]] + t;
      assert r[1..][1..][1..] == t;
      assert s[1..][1..] == s[2..];
      SplitWordsInserts(s[2..]);
      assert Letters(r[1..][1..]) == [s[1]] + Letters(t);
      assert Letters(r) == [s[0]] + Letters(r[1..]);
      assert Letters(s[1..]) == [s[1]] + Letters(s[2..]);
    } else if s != [] {
      assert ([s[0]] + SplitWords(s[1..]))[1..] == SplitWords(s[1..]);
      SplitWordsInserts(s[1..]);
    }
  }

  /** No lowercase letter or digit is left directly before an uppercase
      letter. */
  lemma {:induction false} SplitWordsSeparates(s: string)
    ensures forall i :: 0 <= i < |SplitWords(s)| - 1 ==> !(LowerOrDigit(SplitWords(s)[i]) && IsUpper(SplitWords(s)[i + 1]))
    decreases |s|
  {
    if |s| >= 2 && LowerOrDigit(s[0]) && IsUpper(s[1]) {
      SplitWordsSeparates(s[2..]);
      var t := SplitWords(s[2..]);
      var r := [s[0], '_', s[1]] + t;
      assert forall i :: 3 <= i < |r| ==> r[i] == t[i - 3];
      if t != [] && LowerOrDigit(s[1]) {
        assert false;
      }
    } else if s != [] {
      SplitWordsSeparates(s[1..]);
      var t := SplitWords(s[1..]);
      var r := [s[0]] + t;
      assert forall i :: 1 <= i < |r| ==> r[i] == t[i - 1];
      if |s| >= 2 && LowerOrDigit(s[0]) {
        assert !IsUpper(s[1]);
        SplitWordsHead(s[1..]);
      }
    }
  }

  /** The substitution never changes the first character. */
  lemma SplitWordsHead(s: string)
    requires s != []
    ensures SplitWords(s)[0] == s[0]
  {
  }

  /** `_get_collection_name`. */
  function CollectionName(cls: ModelClass): string {
    if cls.collectionName != "" then cls.collectionName
    else
      var base := if EndsWith(cls.className, "Model") then cls.className[..|cls.className| - 5] else cls.className;
      var name := Lower(SplitWords(base));
      if EndsWith(name, "s") then name else name + "s"
  }

  /** An explicit name is used as it is; a derived one has no uppercase
      letter and ends in `s`, and is never empty. */
  lemma CollectionNameSpec(cls: ModelClass)
    ensures cls.collectionName != "" ==> CollectionName(cls) == cls.collectionName
    ensures cls.collectionName == "" ==>
      && CollectionName(cls) != ""
      && EndsWith(CollectionName(cls), "s")
      && forall i :: 0 <= i < |CollectionName(cls)| ==> !IsUpper(CollectionName(cls)[i])
  {
    if cls.collectionName == "" {
      var name := CollectionName(cls);
      assert name[|name| - 1] == 's';
      assert name[|name| - 1..] == "s";
    }
  }

  /** With no uppercase letter after its first character, and no pair at
      the seam, a prefix passes through the substitution unchanged. */
  lemma {:induction false} SplitWordsPrefix(p: string, rest: string)
    requires forall i :: 0 < i < |p| ==> !IsUpper(p[i])
    requires p != [] && rest != [] ==> !(LowerOrDigit(p[|p| - 1]) && IsUpper(rest[0]))
    ensures SplitWords(p + rest) == p + SplitWords(rest)
    decreases |p|
  {
    if p != [] {
      var s := p + rest;
      assert s[1..] == p[1..] + rest;
      assert p + SplitWords(rest) == [p[0]] + (p[1..] + SplitWords(rest));
      assert s[0] == p[0];
      if |s| >= 2 {
        assert s[1] == if |p| >= 2 then p[1] else rest[0];
        assert !(LowerOrDigit(s[0]) && IsUpper(s[1]));
      }
      assert SplitWords(s) == [s[0]] + SplitWords(s[1..]);
      SplitWordsPrefix(p[1..], rest);
    } else {
      assert p + rest == rest;
      assert p + SplitWords(rest) == SplitWords(rest);
    }
  }

  /** A class named `<base>Model` with no explicit name: the suffix is
      dropped before the words are split, and `s` is added to a name that
      does not end in one. */
  lemma CollectionNameOfModel(base: string, name: string)
    requires Lower(SplitWords(base)) == name && !EndsWith(name, "s")
    ensures CollectionName(ModelClass(base + "Model", "")) == name + "s"
  {
    var full := base + "Model";
    assert full[|full| - 5..] == "Model";
    assert full[..|full| - 5] == base;
  }

  lemma UserWords()
    ensures Lower(SplitWords("User")) == "user" && !EndsWith("user", "s")
  {
    assert SplitWords("User") == "User" by {
      SplitWordsPrefix("User", "");
      assert "User" + "" == "User";
    }
    assert "user"[3] != 's';
  }

  lemma ProductWords()
    ensures Lower(SplitWords("Product")) == "product" && !EndsWith("product", "s")
  {
    assert SplitWords("Product") == "Product" by {
      SplitWordsPrefix("Product", "");
      assert "Product" + "" == "Product";
    }
    assert "product"[6] != 's';
  }

  lemma ItemWords()
    ensures SplitWords("rItem") == "r_Item"
  {
    assert SplitWords("tem") == "tem" by {
      SplitWordsPrefix("tem", "");
      assert "tem" + "" == "tem";
    }
    assert "rItem"[2..] == "tem";
  }

  lemma OrderItemSplit()
    ensures SplitWords("OrderItem") == "Order_Item"
  {
    assert "OrderItem" == "Orde" + "rItem";
    assert "Orde" + "r_Item" == "Order_Item";
    ItemWords();
    SplitWordsPrefix("Orde", "rItem");
  }

  lemma OrderItemLower()
    ensures Lower("Order_Item") == "order_item"
  {
  }

  lemma OrderItemWords()
    ensures Lower(SplitWords("OrderItem")) == "order_item" && !EndsWith("order_item", "s")
  {
    OrderItemSplit();
    OrderItemLower();
    assert "order_item"[9] != 's';
  }

  /** The docstring's examples. */
  lemma CollectionNameUser()
    ensures CollectionName(ModelClass("UserModel", "")) == "users"
  {
    assert "User" + "Model" == "UserModel";
    UserWords();
    CollectionNameOfModel("User", "user");
  }

  lemma CollectionNameProduct()
    ensures CollectionName(ModelClass("ProductModel", "")) == "products"
  {
    assert "Product" + "Model" == "ProductModel";
    ProductWords();
    CollectionNameOfModel("Product", "product");
  }

  lemma CollectionNameOrderItem()
    ensures CollectionName(ModelClass("OrderItemModel", "")) == "order_items"
  {
    assert "OrderItem" + "Model" == "OrderItemModel";
    OrderItemWords();
    CollectionNameOfModel("OrderItem", "order_item");
  }

  // ---------------------------------------------------------------------------
  // get and list
  // ---------------------------------------------------------------------------

  /** The primary key: a UUID (by its canonical text), a string or an int. */
  datatype ModelId = UuidId(text: string) | TextId(s: string) | IntId(i: int)

  /** `str(id)`. */
  function KeyText(id: ModelId): string {
    match id
    case UuidId(t) => t
    case TextId(s) => s
    case IntId(i) => IntToString(i)
  }

  /** A call the model class makes on the client. */
  datatype Request =
    | CollectionCall(keyspace: Keyspace)
    | GetCall(keyspace: Keyspace, key: string)
    | UpsertCall(keyspace: Keyspace, key: string, document: Dict)
    | DeleteCall(keyspace: Keyspace, key: string)
    | QueryCall(statement: string)

  /** The document a request reads or writes, if it addresses one. */
  function Address(r: Request): Option<(Keyspace, string)> {
    match r
    case GetCall(k, key) => Some((k, key))
    case UpsertCall(k, key, _) => Some((k, key))
    case DeleteCall(k, key) => Some((k, key))
    case _ => None
  }

  /** `initialize`: the keyspace of the model's collection in the `_default`
      scope of the configured bucket, as `get_keyspace` builds it from those
      three names. */
  function InitializeRequest(cls: ModelClass, bucket: string,
                             getKeyspace: (string, string, string) -> Keyspace): (r: Request)
    ensures r.CollectionCall? && Address(r).None?
    ensures r.keyspace == getKeyspace(CollectionName(cls), "_default", bucket)
  {
    CollectionCall(getKeyspace(CollectionName(cls), "_default", bucket))
  }

  /** When `get_keyspace` fills in the `_default` scope and the configured
      bucket for a collection name alone, `initialize` prepares the very
      collection that `get`, `upsert` and `delete` address. */
  lemma InitializeSameCollection(cls: ModelClass, bucket: string,
                                 getKeyspace: (string, string, string) -> Keyspace,
                                 keyspaceOf: string -> Keyspace, id: ModelId)
    requires forall name :: keyspaceOf(name) == getKeyspace(name, "_default", bucket)
    ensures Address(GetRequest(cls, keyspaceOf, id)).value.0 == InitializeRequest(cls, bucket, getKeyspace).keyspace
  {
    var name := CollectionName(cls);
    assert keyspaceOf(name) == getKeyspace(name, "_default", bucket);
  }

  /** `get`, `upsert` and `delete`: the keyspace `get_keyspace` gives for the
      collection name alone, and the key `str(id)`. */
  function GetRequest(cls: ModelClass, keyspaceOf: string -> Keyspace, id: ModelId): (r: Request)
    ensures Address(r) == Some((keyspaceOf(CollectionName(cls)), KeyText(id)))
    ensures r.GetCall?
  {
    GetCall(keyspaceOf(CollectionName(cls)), KeyText(id))
  }

  /** A model instance: its primary key and its other fields, as
      `model_dump(mode='json')` renders them. */
  datatype Instance = Instance(id: ModelId, fields: Dict)

  /** The JSON form of a primary key: a UUID and a string dump as text, an
      int as a number. */
  function IdValue(id: ModelId): (v: Value)
    ensures v.Str? || v.Int?
  {
    match id
    case UuidId(t) => Str(t)
    case TextId(s) => Str(s)
    case IntId(i) => Int(i)
  }

  /** `model_dump(mode='json')`: `id` comes first, as the base class declares
      it before any field of a subclass. */
  function Dump(x: Instance): (d: Dict)
    ensures PyValue.Get(d, "id") == Some(IdValue(x.id))
    ensures forall k :: k != "id" ==> PyValue.Get(d, k) == PyValue.Get(x.fields, k)
  {
    var rest := Without(x.fields, "id");
    assert forall k :: PyValue.Get([("id", IdValue(x.id))] + rest, k) == if k == "id" then Some(IdValue(x.id)) else PyValue.Get(rest, k) by {
      forall k { GetCons(("id", IdValue(x.id)), rest, k); }
    }
    [("id", IdValue(x.id))] + rest
  }

  /** `upsert` writes the instance's dump under the text of its own id. */
  function UpsertRequest(cls: ModelClass, keyspaceOf: string -> Keyspace, x: Instance): (r: Request)
    ensures Address(r) == Some((keyspaceOf(CollectionName(cls)), KeyText(x.id)))
    ensures r.UpsertCall? && r.document == Dump(x)
  {
    UpsertCall(keyspaceOf(CollectionName(cls)), KeyText(x.id), Dump(x))
  }

  function DeleteRequest(cls: ModelClass, keyspaceOf: string -> Keyspace, id: ModelId): (r: Request)
    ensures Address(r) == Some((keyspaceOf(CollectionName(cls)), KeyText(id)))
    ensures r.DeleteCall?
  {
    DeleteCall(keyspaceOf(CollectionName(cls)), KeyText(id))
  }

  /** `get`, `upsert` and `delete` of one id address one document; integer
      ids that differ address different documents. */
  lemma SameDocument(cls: ModelClass, keyspaceOf: string -> Keyspace, id: ModelId, other: ModelId, fields: Dict)
    ensures Address(GetRequest(cls, keyspaceOf, id)) == Address(UpsertRequest(cls, keyspaceOf, Instance(id, fields)))
                                                    == Address(DeleteRequest(cls, keyspaceOf, id))
    ensures id.IntId? && other.IntId? && id != other ==>
              Address(GetRequest(cls, keyspaceOf, id)) != Address(GetRequest(cls, keyspaceOf, other))
  {
    if id.IntId? && other.IntId? && KeyText(id) == KeyText(other) {
      KeyTextIntInjective(id.i, other.i);
    }
  }

  // ---------------------------------------------------------------------------
  // The stored documents
  // ---------------------------------------------------------------------------

  /** The documents of every collection, by keyspace and then by key. */
  type Store = map<Keyspace, map<string, Dict>>

  /** The document stored under a key, if any. */
  function Lookup(store: Store, keyspace: Keyspace, key: string): Option<Dict> {
    var c := Seeder.Collection(store, keyspace);
    if key in c then Some(c[key]) else None
  }

  /** What a request does to the stored documents: an upsert stores its
      document under its key, a delete removes the key, and every other
      document stays as it was. */
  function Apply(store: Store, req: Request): (s: Store)
    ensures forall k, key :: Address(req) != Some((k, key)) ==> Lookup(s, k, key) == Lookup(store, k, key)
    ensures req.UpsertCall? ==> Lookup(s, req.keyspace, req.key) == Some(req.document)
    ensures req.DeleteCall? ==> Lookup(s, req.keyspace, req.key) == None
  {
    match req
    case UpsertCall(k, key, doc) => store[k := Seeder.Collection(store, k)[key := doc]]
    case DeleteCall(k, key) => store[k := Seeder.Collection(store, k) - {key}]
    case _ => store
  }

  /** Why `cls(**doc)` refuses a document: the `id` field is required, and
      must be a UUID, a string or an int. */
  datatype ModelError = MissingId | InvalidId(found: Value)

  /** What the `id: UUID | str | int` field accepts: text, a number, and a
      boolean, which pydantic's lax mode takes as an int. */
  predicate AcceptedId(v: Value) {
    v.Str? || v.Int? || v.Bool?
  }

  /** `cls(**doc)` as the base class validates it. The instance stands for
      the document it was built from. */
  function Instantiate(doc: Dict): (r: Result<Dict, ModelError>)
    ensures r.Success? <==> HasKey(doc, "id") && AcceptedId(PyValue.Get(doc, "id").value)
    ensures r.Success? ==> r.value == doc
    ensures r == Failure(MissingId) <==> !HasKey(doc, "id")
  {
    match PyValue.Get(doc, "id")
    case None => Failure(MissingId)
    case Some(v) => if AcceptedId(v) then Success(doc) else Failure(InvalidId(v))
  }

  /** `get`: None when nothing is stored under the id's text, otherwise the
      model built from the stored document; it fails exactly when that
      document does not validate, with validation's error. */
  function Get(store: Store, cls: ModelClass, keyspaceOf: string -> Keyspace, id: ModelId): (r: Result<Option<Dict>, ModelError>)
    ensures var req := GetRequest(cls, keyspaceOf, id);
      && (r == Success(None) <==> Lookup(store, req.keyspace, req.key).None?)
      && (r.Success? && r.value.Some? ==> Some(r.value.value) == Lookup(store, req.keyspace, req.key))
      && (r.Failure? <==> Lookup(store, req.keyspace, req.key).Some? && Instantiate(Lookup(store, req.keyspace, req.key).value).Failure?)
      && (r.Failure? ==> r.error == Instantiate(Lookup(store, req.keyspace, req.key).value).error)
  {
    var req := GetRequest(cls, keyspaceOf, id);
    match Lookup(store, req.keyspace, req.key)
    case None => Success(None)
    case Some(doc) =>
      match Instantiate(doc)
      case Success(m) => Success(Some(m))
      case Failure(e) => Failure(e)
  }

  /** An upserted instance reads back as its dump. */
  lemma GetAfterUpsert(store: Store, cls: ModelClass, keyspaceOf: string -> Keyspace, x: Instance)
    ensures Get(Apply(store, UpsertRequest(cls, keyspaceOf, x)), cls, keyspaceOf, x.id) == Success(Some(Dump(x)))
  {
    var dump := Dump(x);
    assert Instantiate(dump) == Success(dump);
  }

  /** A deleted id reads back as no instance. */
  lemma GetAfterDelete(store: Store, cls: ModelClass, keyspaceOf: string -> Keyspace, id: ModelId)
    ensures Get(Apply(store, DeleteRequest(cls, keyspaceOf, id)), cls, keyspaceOf, id) == Success(None)
  {
  }

  /** Writing or deleting one integer id leaves what `get` answers for any
      other integer id. */
  lemma OtherIntId(store: Store, cls: ModelClass, keyspaceOf: string -> Keyspace, x: Instance, other: ModelId)
    requires x.id.IntId? && other.IntId? && x.id != other
    ensures Get(Apply(store, UpsertRequest(cls, keyspaceOf, x)), cls, keyspaceOf, other) == Get(store, cls, keyspaceOf, other)
    ensures Get(Apply(store, DeleteRequest(cls, keyspaceOf, x.id)), cls, keyspaceOf, other) == Get(store, cls, keyspaceOf, other)
  {
    SameDocument(cls, keyspaceOf, x.id, other, x.fields);
  }

  /** The key is `str(id)` alone, so the string id "7" and the int id 7 name
      the same document: `get` by either reads what the other wrote. */
  lemma TextAndIntShareKey(store: Store, cls: ModelClass, keyspaceOf: string -> Keyspace, fields: Dict)
    ensures var x := Instance(IntId(7), fields);
      Get(Apply(store, UpsertRequest(cls, keyspaceOf, x)), cls, keyspaceOf, TextId("7")) == Success(Some(Dump(x)))
  {
    assert IntToString(7) == "7" by {
      assert NatToString(7) == [DigitChar(7)];
    }
    GetAfterUpsert(store, cls, keyspaceOf, Instance(IntId(7), fields));
  }

  /** The config manager stores a seed document without its `id` entry, so
      `get` of a model over that collection raises a validation error instead
      of returning the document. */
  lemma GetSeededDocument(store: Store, cls: ModelClass, keyspaceOf: string -> Keyspace, c: map<string, Dict>,
                          doc: Value, upsert: bool, fault: Option<Seeder.WriteFault>)
    requires Seeder.SeedOne(c, doc, upsert, fault).Success?
    requires Seeder.SeedOne(c, doc, upsert, fault).value.1 in {Seeder.Inserted, Seeder.Updated}
    requires Seeder.Collection(store, keyspaceOf(CollectionName(cls))) == Seeder.SeedOne(c, doc, upsert, fault).value.0
    ensures Get(store, cls, keyspaceOf, TextId(PyValue.Get(doc.entries, "id").value.s)) == Failure(MissingId)
  {
    Seeder.SeedOneSpec(c, doc, upsert, fault);
  }

  /** Different integer ids use different keys. */
  lemma KeyTextIntInjective(a: int, b: int)
    requires KeyText(IntId(a)) == KeyText(IntId(b))
    ensures a == b
  {
    assert IntToString(a) == IntToString(b);
    IntToStringInjective(a, b);
  }

  const Indent := "\n            "

  /** The statement `list` sends: the triple-quoted text with its line breaks
      and indentation. */
  function ListQuery(cls: ModelClass, keyspace: Keyspace, limit: int := 100, offset: int := 0): string {
    Indent + "SELECT META().id as id, " + CollectionName(cls) + ".*"
      + Indent + "FROM `" + keyspace.bucketName + "`.`" + keyspace.scopeName + "`.`" + keyspace.collectionName + "`"
      + PageClause(limit, offset)
  }

  /** The statement's last line. */
  function PageClause(limit: int, offset: int): string {
    Indent + "LIMIT " + IntToString(limit) + " OFFSET " + IntToString(offset) + "\n        "
  }

  /** The statement's last line is the page: `LIMIT limit OFFSET offset`. */
  lemma ListQueryPage(cls: ModelClass, keyspace: Keyspace, limit: int, offset: int)
    ensures EndsWith(ListQuery(cls, keyspace, limit, offset),
                     Indent + "LIMIT " + IntToString(limit) + " OFFSET " + IntToString(offset) + "\n        ")
  {
    var tail := PageClause(limit, offset);
    var head := Indent + "SELECT META().id as id, " + CollectionName(cls) + ".*"
      + Indent + "FROM `" + keyspace.bucketName + "`.`" + keyspace.scopeName + "`.`" + keyspace.collectionName + "`";
    assert ListQuery(cls, keyspace, limit, offset) == head + tail;
    assert (head + tail)[|head + tail| - |tail|..] == tail;
  }

  /** Without arguments `list` asks for the first 100 documents. */
  lemma ListQueryDefaults(cls: ModelClass, keyspace: Keyspace)
    ensures EndsWith(ListQuery(cls, keyspace), Indent + "LIMIT 100 OFFSET 0\n        ")
  {
    assert IntToString(100) == "100" by {
      assert NatToString(100) == NatToString(10) + "0";
      assert NatToString(10) == NatToString(1) + "0";
    }
    assert Indent + "LIMIT " + "100" + " OFFSET " + "0" + "\n        " == Indent + "LIMIT 100 OFFSET 0\n        ";
    ListQueryPage(cls, keyspace, 100, 0);
  }

  /** `list`: one query for the model's collection, whose last line asks
      for `limit` documents after the first `offset`. */
  function ListRequest(cls: ModelClass, keyspaceOf: string -> Keyspace, limit: int := 100, offset: int := 0): (r: Request)
    ensures r.QueryCall? && Address(r).None?
    ensures EndsWith(r.statement, Indent + "LIMIT " + IntToString(limit) + " OFFSET " + IntToString(offset) + "\n        ")
  {
    ListQueryPage(cls, keyspaceOf(CollectionName(cls)), limit, offset);
    QueryCall(ListQuery(cls, keyspaceOf(CollectionName(cls)), limit, offset))
  }

  /** `[cls(**row) for row in rows]` over the rows `query_documents`
      answers: one instance per row, in order, or the error of the first
      row that does not validate. */
  function List(rows: seq<Dict>): (r: Result<seq<Dict>, ModelError>)
    ensures r.Success? ==> r.value == rows
    decreases |rows|
  {
    if rows == [] then Success([])
    else
      match Instantiate(rows[0])
      case Failure(e) => Failure(e)
      case Success(m) =>
        match List(rows[1..])
        case Failure(e) => Failure(e)
        case Success(ms) =>
          assert [rows[0]] + rows[1..] == rows;
          Success([m] + ms)
  }

  /** `list` succeeds exactly when every row validates; otherwise it raises
      the error of the first row that does not. */
  lemma {:induction false} ListSpec(rows: seq<Dict>)
    ensures List(rows).Success? <==> forall i :: 0 <= i < |rows| ==> Instantiate(rows[i]).Success?
    ensures List(rows).Failure? ==>
      exists i :: 0 <= i < |rows| && Instantiate(rows[i]) == Failure(List(rows).error)
                && forall j :: 0 <= j < i ==> Instantiate(rows[j]).Success?
    decreases |rows|
  {
    if rows != [] && Instantiate(rows[0]).Success? {
      var rest := rows[1..];
      ListSpec(rest);
      assert forall i :: 1 <= i < |rows| ==> rows[i] == rest[i - 1];
      if List(rest).Failure? {
        var i :| 0 <= i < |rest| && Instantiate(rest[i]) == Failure(List(rest).error)
                 && forall j :: 0 <= j < i ==> Instantiate(rest[j]).Success?;
        assert Instantiate(rows[i + 1]) == Failure(List(rows).error);
      }
    }
  }
}
