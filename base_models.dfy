/** The API's shared models (templates/api/src/models/base.py): pagination
    parameters and the paginated response, and the conversion between a
    Couchbase document model and what is stored under its key. */
module BaseModels {
  import opened Wrappers
  import opened PyValue
  import Helpers

  // ---------------------------------------------------------------------------
  // PaginationParams
  // ---------------------------------------------------------------------------

  datatype PaginationParams = PaginationParams(page: int, pageSize: int)

  /** The field constraints: `page >= 1`, `1 <= page_size <= 100`. */
  predicate Valid(p: PaginationParams) {
    p.page >= 1 && 1 <= p.pageSize <= 100
  }

  /** Constructing `PaginationParams(page=…, page_size=…)`, 1 and 20 by
      default: validation reports every field whose constraint fails. */
  function NewPaginationParams(page: int := 1, pageSize: int := 20): (r: Result<PaginationParams, seq<string>>)
    ensures r.Success? <==> Valid(PaginationParams(page, pageSize))
    ensures r.Success? ==> r.value == PaginationParams(page, pageSize)
    ensures r.Failure? ==> ("page" in r.error <==> page < 1) && ("page_size" in r.error <==> !(1 <= pageSize <= 100))
  {
    var errors := (if page >= 1 then [] else ["page"]) + (if 1 <= pageSize <= 100 then [] else ["page_size"]);
    if errors == [] then Success(PaginationParams(page, pageSize)) else Failure(errors)
  }

  /** The `offset` property: how many items the pages before this one hold. */
  function Offset(p: PaginationParams): (o: int)
    ensures Valid(p) ==> 0 <= o && o % p.pageSize == 0 && o / p.pageSize == p.page - 1
    ensures Valid(p) ==> (o == 0 <==> p.page == 1)
  {
    if Valid(p) then MultipleOf(p.page - 1, p.pageSize); (p.page - 1) * p.pageSize
    else (p.page - 1) * p.pageSize
  }

  /** `a * b` divided by `b` is `a` with nothing left over. */
  lemma MultipleOf(a: nat, b: int)
    requires b > 0
    ensures 0 <= a * b && (a * b) % b == 0 && (a * b) / b == a
    ensures a * b == 0 <==> a == 0
  {
    var x := a * b;
    var q, r := x / b, x % b;
    assert x == q * b + r;
    assert (a - q) * b == r;
    ScaleBound(a - q, b);
    ScaleBound(a, b);
  }

  /** A multiple of a positive `b` by a non-zero factor is at least `b` away
      from zero. */
  lemma ScaleBound(k: int, b: int)
    requires b > 0
    ensures k >= 1 ==> k * b >= b
    ensures k <= -1 ==> k * b <= -b
  {
  }

  /** Consecutive pages are adjacent: the next page starts where this one
      ends. */
  lemma OffsetNext(p: PaginationParams)
    requires Valid(p)
    ensures Offset(PaginationParams(p.page + 1, p.pageSize)) == Offset(p) + p.pageSize
    ensures Offset(p) < Offset(PaginationParams(p.page + 1, p.pageSize))
  {
  }

  /** Different pages of one size start at different offsets, so no item is
      on two pages. */
  lemma OffsetInjective(p: PaginationParams, q: PaginationParams)
    requires Valid(p) && Valid(q) && p.pageSize == q.pageSize
    requires Offset(p) == Offset(q)
    ensures p.page == q.page
  {
  }

  // ---------------------------------------------------------------------------
  // PaginatedResponse
  // ---------------------------------------------------------------------------

  datatype PaginatedResponse<T> = PaginatedResponse(
    items: seq<T>, total: int, page: int, pageSize: int, hasNext: bool, hasPrev: bool)

  /** `PaginatedResponse.create(items, total, params)`. */
  function Create<T>(items: seq<T>, total: int, params: PaginationParams): (r: PaginatedResponse<T>)
    ensures r.items == items && r.total == total
    ensures r.page == params.page && r.pageSize == params.pageSize
  {
    PaginatedResponse(items, total, params.page, params.pageSize,
                      params.page * params.pageSize < total, params.page > 1)
  }

  /** There is a next page exactly when items lie beyond this page's end,
      and a previous page exactly when this one does not start at 0. */
  lemma CreateFlags<T>(items: seq<T>, total: int, params: PaginationParams)
    requires Valid(params)
    ensures Create(items, total, params).hasNext <==> Offset(params) + params.pageSize < total
    ensures Create(items, total, params).hasPrev <==> Offset(params) > 0
  {
  }

  /** The response built over a page of `paginate_list` carries the same
      flags, page and size as `paginate_list` computes for it. */
  lemma CreateAgreesWithPaginate<T>(all: seq<T>, params: PaginationParams)
    requires Valid(params)
    ensures var p := Helpers.PaginateList(all, params.page, params.pageSize);
      var r := Create(p.items, |all|, params);
      r.items == p.items && r.total == p.total && r.page == p.page && r.pageSize == p.pageSize
      && r.hasNext == p.hasNext && r.hasPrev == p.hasPrev
  {
    Helpers.PaginateSpec(all, params.page, params.pageSize);
  }

  // ---------------------------------------------------------------------------
  // CouchbaseDocument
  // ---------------------------------------------------------------------------

  /** The entries of `d` whose keys are field names the model class
      declares, in order: pydantic's default `extra='ignore'` drops every
      other keyword argument. */
  function DeclaredOnly(d: Dict, declared: set<string>): (r: Dict)
    ensures forall e :: e in r <==> e in d && e.0 in declared
    ensures forall k :: Get(r, k) == if k in declared then Get(d, k) else None
    decreases |d|
  {
    if d == [] then []
    else
      var rest := DeclaredOnly(d[1..], declared);
      assert forall k :: Get(d, k) == if d[0].0 == k then Some(d[0].1) else Get(d[1..], k) by {
        forall k ensures Get(d, k) == if d[0].0 == k then Some(d[0].1) else Get(d[1..], k) {
          GetCons(d[0], d[1..], k);
          assert [d[0]] + d[1..] == d;
        }
      }
      if d[0].0 in declared then
        assert forall k :: Get([d[0]] + rest, k) == if d[0].0 == k then Some(d[0].1) else Get(rest, k) by {
          forall k ensures Get([d[0]] + rest, k) == if d[0].0 == k then Some(d[0].1) else Get(rest, k) {
            GetCons(d[0], rest, k);
          }
        }
        [d[0]] + rest
      else rest
  }

  /** A class deriving from `CouchbaseDocument`, given by the names of the
      fields it declares; `document_type` is inherited by every one of
      them. */
  predicate DocumentClass(declared: set<string>) {
    "document_type" in declared
  }

  /** `cls.from_couchbase_result(key, content)`, that is
      `cls(id=key, **content)`, for the class declaring `declared`. Python
      refuses a second `id` keyword; validation refuses content whose
      `document_type` is missing or not a string; the instance keeps only
      the declared fields, so `id` survives only when the class declares it
      (`CouchbaseDocument` itself does not). */
  function FromCouchbaseResult(declared: set<string>, key: string, content: Dict): (r: Result<Dict, string>)
    requires DocumentClass(declared)
    ensures r.Success? <==> !HasKey(content, "id") && Get(content, "document_type").Some? && Get(content, "document_type").value.Str?
    ensures r.Success? ==> Get(r.value, "id") == if "id" in declared then Some(Str(key)) else None
    ensures r.Success? ==> forall k :: k != "id" ==> Get(r.value, k) == if k in declared then Get(content, k) else None
    ensures r.Success? ==> forall e :: e in r.value ==> e.0 in declared
  {
    if HasKey(content, "id") then Failure("got multiple values for keyword argument 'id'")
    else
      match Get(content, "document_type")
      case None => Failure("document_type: Field required")
      case Some(v) =>
        if !v.Str? then Failure("document_type: Input should be a valid string")
        else
          assert forall k :: Get([("id", Str(key))] + content, k) == if k == "id" then Some(Str(key)) else Get(content, k) by {
            forall k ensures Get([("id", Str(key))] + content, k) == if k == "id" then Some(Str(key)) else Get(content, k) {
              GetCons(("id", Str(key)), content, k);
            }
          }
          Success(DeclaredOnly([("id", Str(key))] + content, declared))
  }

  /** `to_couchbase_document`: the dumped fields without `id`, which is
      stored as the document key. */
  function ToCouchbaseDocument(dump: Dict): (r: Dict)
    ensures !HasKey(r, "id")
    ensures forall e :: e in r <==> e in dump && e.0 != "id"
  {
    Without(dump, "id")
  }

  /** Reading a document and storing it again keeps exactly its declared
      fields: every other key of the content is lost on the way. */
  lemma DocumentKeepsDeclared(declared: set<string>, key: string, content: Dict)
    requires DocumentClass(declared)
    requires FromCouchbaseResult(declared, key, content).Success?
    ensures ToCouchbaseDocument(FromCouchbaseResult(declared, key, content).value) == DeclaredOnly(content, declared)
  {
    var withId := [("id", Str(key))] + content;
    assert withId[1..] == content;
    if "id" in declared {
      assert DeclaredOnly(withId, declared) == [("id", Str(key))] + DeclaredOnly(content, declared);
    } else {
      assert DeclaredOnly(withId, declared) == DeclaredOnly(content, declared);
    }
    assert !HasKey(DeclaredOnly(content, declared), "id");
    WithoutAbsent(DeclaredOnly(content, declared), "id");
  }

  /** Keeping only declared fields changes nothing when every key is
      declared. */
  lemma {:induction false} DeclaredOnlyAll(d: Dict, declared: set<string>)
    requires forall i :: 0 <= i < |d| ==> d[i].0 in declared
    ensures DeclaredOnly(d, declared) == d
    decreases |d|
  {
    if d != [] {
      DeclaredOnlyAll(d[1..], declared);
      assert [d[0]] + d[1..] == d;
    }
  }

  /** Storing a document read back under its key gives back the stored
      content unchanged, when the class declares every key of it. */
  lemma DocumentRoundTrip(declared: set<string>, key: string, content: Dict)
    requires DocumentClass(declared)
    requires FromCouchbaseResult(declared, key, content).Success?
    requires forall i :: 0 <= i < |content| ==> content[i].0 in declared
    ensures ToCouchbaseDocument(FromCouchbaseResult(declared, key, content).value) == content
  {
    DocumentKeepsDeclared(declared, key, content);
    DeclaredOnlyAll(content, declared);
  }

  /** `CouchbaseDocument` itself declares only `document_type`: reading
      `{"document_type": "t", "name": "n"}` under key "k" keeps neither the
      key nor the name, and storing the instance gives
      `{"document_type": "t"}`. */
  lemma BaseDocumentDropsKey()
    ensures var content := [("document_type", Str("t")), ("name", Str("n"))];
      var r := FromCouchbaseResult({"document_type"}, "k", content);
      r == Success([("document_type", Str("t"))])
      && ToCouchbaseDocument(r.value) == [("document_type", Str("t"))]
  {
    var content := [("document_type", Str("t")), ("name", Str("n"))];
    assert Keys(content) == ["document_type", "name"];
    assert "id" !in Keys(content);
    var withId := [("id", Str("k"))] + content;
    assert withId[1..] == content;
    assert content[1..] == [("name", Str("n"))];
    assert [("name", Str("n"))][1..] == [];
    assert DeclaredOnly([("name", Str("n"))], {"document_type"}) == [];
    assert DeclaredOnly(content, {"document_type"}) == [("document_type", Str("t"))];
    assert DeclaredOnly(withId, {"document_type"}) == [("document_type", Str("t"))];
    assert Keys([("document_type", Str("t"))]) == ["document_type"];
    WithoutAbsent([("document_type", Str("t"))], "id");
  }

  /** Reading a stored dump back under its id restores every field, the id
      included: a real dump holds only declared fields, so a dump with an
      `id` comes from a class that declares it. */
  lemma ResultRoundTrip(declared: set<string>, key: string, dump: Dict)
    requires DocumentClass(declared)
    requires forall e :: e in dump ==> e.0 in declared
    requires Get(dump, "id") == Some(Str(key))
    requires Get(dump, "document_type").Some? && Get(dump, "document_type").value.Str?
    ensures FromCouchbaseResult(declared, key, ToCouchbaseDocument(dump)).Success?
    ensures forall k :: Get(FromCouchbaseResult(declared, key, ToCouchbaseDocument(dump)).value, k) == Get(dump, k)
  {
    assert ("id", Str(key)) in dump;
    forall k ensures Get(FromCouchbaseResult(declared, key, ToCouchbaseDocument(dump)).value, k) == Get(dump, k) {
      if k != "id" && k !in declared {
        if Get(dump, k).Some? {
          assert (k, Get(dump, k).value) in dump;
        }
      }
    }
  }
}
