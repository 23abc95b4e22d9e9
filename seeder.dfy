/** `CouchbaseSeeder` (templates/config-manager/src/couchbase_seeder.py): seed
    files named `bucket.scope.collection.json` are loaded and written
    document by document into a cluster, with per-document and per-file
    counts. The cluster's documents are one map per keyspace; what the file
    system, `json.load`, the connection and each write do are inputs. */
module Seeder {
  import opened Wrappers
  import opened Text
  import opened PyValue
  import opened Keyspaces

  // ---------------------------------------------------------------------------
  // File names
  // ---------------------------------------------------------------------------

  /** `_parse_filename`: the name without its `.json` extension must split on
      `.` into bucket, scope and collection. The warnings it logs are not
      modelled. */
  function ParseFilename(filename: string): Option<Keyspace> {
    if !EndsWith(filename, ".json") then None
    else
      var parts := Split(filename[..|filename| - 5], '.');
      if |parts| != 3 then None
      else Some(Keyspace(parts[0], parts[1], parts[2]))
  }

  /** A name parses exactly when it ends in `.json` and the rest has two
      dots; the three names then carry no dot and, rejoined, give the rest
      back. */
  lemma ParseFilenameSpec(filename: string)
    ensures ParseFilename(filename).Some? <==>
      EndsWith(filename, ".json") && Occurrences(filename[..|filename| - 5], '.') == 2
    ensures ParseFilename(filename).Some? ==>
      DotFree(ParseFilename(filename).value) &&
      ToString(ParseFilename(filename).value) + ".json" == filename
  {
    if EndsWith(filename, ".json") {
      var stem := filename[..|filename| - 5];
      SplitCount(stem, '.');
      SplitPartsFree(stem, '.');
      assert FromString(stem) == (if ParseFilename(filename).Some? then Success(ParseFilename(filename).value) else FromString(stem));
      if ParseFilename(filename).Some? {
        PrintParsed(stem);
        assert filename == stem + ".json";
      }
    }
  }

  /** Seed file names built from dot-free names parse back to them. */
  lemma ParseFilenameRoundTrip(k: Keyspace)
    requires DotFree(k)
    ensures ParseFilename(ToString(k) + ".json") == Some(k)
  {
    var name := ToString(k) + ".json";
    assert name[|name| - 5..] == ".json";
    assert name[..|name| - 5] == ToString(k);
    ParsePrinted(k);
  }

  /** The docstring's example. */
  lemma ParseFilenameExample()
    ensures ParseFilename("main.api.users.json") == Some(Keyspace("main", "api", "users"))
  {
    var k := Keyspace("main", "api", "users");
    assert ToString(k) + ".json" == "main.api.users.json";
    ParseFilenameRoundTrip(k);
  }

  /** `_is_example_file`, on the upper-cased name. */
  predicate IsExampleFile(filename: string) {
    var name := Upper(filename);
    StartsWith(name, "EXAMPLE") || StartsWith(name, "_") || EndsWith(name, ".EXAMPLE.JSON")
  }

  lemma UpperLower(s: string)
    ensures Upper(Lower(s)) == Upper(s) && Upper(Upper(s)) == Upper(s)
  {
  }

  /** The test ignores case: a name and its upper- and lower-cased forms are
      all example files or none is. */
  lemma IsExampleFileIgnoresCase(filename: string)
    ensures IsExampleFile(Lower(filename)) == IsExampleFile(filename)
    ensures IsExampleFile(Upper(filename)) == IsExampleFile(filename)
  {
    UpperLower(filename);
  }

  lemma UpperExample()
    ensures Upper("example") == "EXAMPLE"
  {
  }

  lemma UpperExampleJson()
    ensures Upper(".example.json") == ".EXAMPLE.JSON"
  {
  }

  /** A lower-case `example` prefix or `.example.json` suffix is enough; so is
      a leading underscore. */
  lemma IsExampleFileCases(filename: string)
    ensures StartsWith(filename, "example") || StartsWith(filename, "_") || EndsWith(filename, ".example.json")
      ==> IsExampleFile(filename)
  {
    if StartsWith(filename, "example") {
      UpperExample();
      UpperStartsWith(filename, "example");
    } else if StartsWith(filename, "_") {
      assert Upper("_") == "_";
      UpperStartsWith(filename, "_");
    } else if EndsWith(filename, ".example.json") {
      UpperExampleJson();
      UpperEndsWith(filename, ".example.json");
    }
  }

  /** A seed file name without any of the three marks is not ignored. */
  lemma IsExampleFileExample()
    ensures !IsExampleFile("main.api.users.json")
  {
    var name := Upper("main.api.users.json");
    assert name[0] == 'M';
    assert name[|name| - 13] == 'P';
  }

  // ---------------------------------------------------------------------------
  // Documents
  // ---------------------------------------------------------------------------

  /** `type(data)` as the ValueError prints it. */
  function TypeName(v: Value): string {
    match v
    case Null => "<class 'NoneType'>"
    case Bool(_) => "<class 'bool'>"
    case Int(_) => "<class 'int'>"
    case Str(_) => "<class 'str'>"
    case List(_) => "<class 'list'>"
    case Object(_) => "<class 'dict'>"
  }

  /** `_load_seed_data` after `json.load`: an object becomes a one-element
      list, a list is kept, anything else is a ValueError. */
  function LoadSeedData(data: Value): (r: Result<seq<Value>, string>)
    ensures data.Object? ==> r == Success([data])
    ensures data.List? ==> r == Success(data.items)
    ensures r.Failure? <==> !data.Object? && !data.List?
  {
    match data
    case Object(_) => Success([data])
    case List(items) => Success(items)
    case _ => Failure("Seed data must be a JSON array or object, got " + TypeName(data))
  }

  /** `"id" in s` for a string: a substring test. */
  predicate HasIdText(s: string)
    decreases |s|
  {
    |s| >= 2 && ((s[0] == 'i' && s[1] == 'd') || HasIdText(s[1..]))
  }

  /** What `_validate_document` and `doc['id']` make of one entry of the seed
      list: its id, no id (counted as failed), or a TypeError, which is not
      caught inside `seed_collection`. Only a dict can have an id; a string or
      list containing "id" passes the check and then fails to index. */
  function DocId(doc: Value): Result<Option<Value>, string> {
    match doc
    case Object(entries) => Success(Get(entries, "id"))
    case Str(s) => if HasIdText(s) then Failure("string indices must be integers") else Success(None)
    case List(items) =>
      if Str("id") in items then Failure("list indices must be integers or slices, not str") else Success(None)
    case Null => Failure("argument of type 'NoneType' is not iterable")
    case Bool(_) => Failure("argument of type 'bool' is not iterable")
    case Int(_) => Failure("argument of type 'int' is not iterable")
  }

  /** A write that raises something other than DocumentExistsException: a
      CouchbaseException, or any other exception. */
  datatype WriteFault = CouchbaseFault(message: string) | OtherFault(message: string)

  datatype DocOutcome = Inserted | Updated | Skipped | Failed

  datatype Stats = Stats(inserted: nat, updated: nat, skipped: nat, failed: nat)

  function Count(s: Stats, o: DocOutcome): Stats {
    match o
    case Inserted => s.(inserted := s.inserted + 1)
    case Updated => s.(updated := s.updated + 1)
    case Skipped => s.(skipped := s.skipped + 1)
    case Failed => s.(failed := s.failed + 1)
  }

  function Total(s: Stats): nat {
    s.inserted + s.updated + s.skipped + s.failed
  }

  /** One iteration of the loop in `seed_collection`, on the target
      collection. The data written is the document without its `id` entry;
      the key must be a string, so an id of any other type makes the write
      raise. */
  function SeedOne(c: map<string, Dict>, doc: Value, upsert: bool, fault: Option<WriteFault>): Result<(map<string, Dict>, DocOutcome), string> {
    match DocId(doc)
    case Failure(e) => Failure(e)
    case Success(id) =>
      if id.None? then Success((c, Failed))
      else if !id.value.Str? || fault.Some? then Success((c, Failed))
      else
        var key, data := id.value.s, Without(doc.entries, "id");
        if upsert then Success((c[key := data], Updated))
        else if key in c then Success((c, Skipped))
        else Success((c[key := data], Inserted))
  }

  /** The entry holds a dict with a string id. */
  predicate Writable(doc: Value) {
    doc.Object? && Get(doc.entries, "id").Some? && Get(doc.entries, "id").value.Str?
  }

  /** A document without an id counts as failed and writes nothing; a written
      document is stored under its id with the id entry removed; with
      `upsert` every write counts as updated, without it an existing key is
      skipped and keeps its document, a new one is inserted. */
  lemma SeedOneSpec(c: map<string, Dict>, doc: Value, upsert: bool, fault: Option<WriteFault>)
    ensures doc.Object? && !HasKey(doc.entries, "id") ==> SeedOne(c, doc, upsert, fault) == Success((c, Failed))
    ensures doc.Object? ==> SeedOne(c, doc, upsert, fault).Success?
    ensures var r := SeedOne(c, doc, upsert, fault);
      r.Success? && r.value.1 in {Inserted, Updated} ==>
        Writable(doc) && fault.None? &&
        var key := Get(doc.entries, "id").value.s;
        && r.value.0 == c[key := Without(doc.entries, "id")]
        && !HasKey(r.value.0[key], "id")
        && (r.value.1 == Updated <==> upsert)
    ensures var r := SeedOne(c, doc, upsert, fault);
      r.Success? && r.value.1 in {Skipped, Failed} ==> r.value.0 == c
    ensures var r := SeedOne(c, doc, upsert, fault);
      r.Success? && r.value.1 == Skipped <==>
        Writable(doc) && fault.None? && !upsert && Get(doc.entries, "id").value.s in c
  {
  }

  /** The counter an entry can move: `upsert` never inserts or skips, and
      insert-only never updates. */
  lemma SeedOneOutcome(c: map<string, Dict>, doc: Value, upsert: bool, fault: Option<WriteFault>)
    ensures var r := SeedOne(c, doc, upsert, fault);
      r.Success? ==> (if upsert then r.value.1 in {Updated, Failed} else r.value.1 != Updated)
  {
  }

  /** Insert-only writes never replace a document already present. */
  lemma SeedOneKeeps(c: map<string, Dict>, doc: Value, fault: Option<WriteFault>)
    ensures var r := SeedOne(c, doc, false, fault);
      r.Success? ==> forall k :: k in c ==> k in r.value.0 && r.value.0[k] == c[k]
  {
  }

  /** One pass of the loop, after the entries before it. */
  function SeedNext(c: map<string, Dict>, r: Result<Stats, string>, doc: Value, upsert: bool, fault: Option<WriteFault>): (map<string, Dict>, Result<Stats, string>) {
    if r.Failure? then (c, r)
    else match SeedOne(c, doc, upsert, fault)
      case Failure(e) => (c, Failure(e))
      case Success((c2, o)) => (c2, Success(Count(r.value, o)))
  }

  /** `seed_collection`'s loop over the first `n` entries: the collection it
      leaves and its counts, or the TypeError that ended it (the writes made
      before it stay). `fault(i)` is what the write of entry `i` raises. */
  function SeedRun(c: map<string, Dict>, docs: seq<Value>, upsert: bool, fault: nat -> Option<WriteFault>, n: nat): (map<string, Dict>, Result<Stats, string>)
    requires n <= |docs|
    decreases n
  {
    if n == 0 then (c, Success(Stats(0, 0, 0, 0)))
    else
      var (c1, r) := SeedRun(c, docs, upsert, fault, n - 1);
      SeedNext(c1, r, docs[n - 1], upsert, fault(n - 1))
  }

  predicate CountsFit(r: Result<Stats, string>, upsert: bool, n: nat) {
    r.Success? ==>
      && Total(r.value) == n
      && (upsert ==> r.value.inserted == 0 && r.value.skipped == 0)
      && (!upsert ==> r.value.updated == 0)
  }

  lemma SeedNextCounts(c: map<string, Dict>, r: Result<Stats, string>, doc: Value, upsert: bool, fault: Option<WriteFault>, n: nat)
    requires CountsFit(r, upsert, n)
    ensures CountsFit(SeedNext(c, r, doc, upsert, fault).1, upsert, n + 1)
  {
    SeedOneOutcome(c, doc, upsert, fault);
  }

  /** Every entry moves exactly one counter, so the counts add up to the
      number of entries; `upsert` never counts inserted or skipped entries and
      insert-only never counts updated ones. */
  lemma {:induction false} SeedRunCounts(c: map<string, Dict>, docs: seq<Value>, upsert: bool, fault: nat -> Option<WriteFault>, n: nat)
    requires n <= |docs|
    ensures var r := SeedRun(c, docs, upsert, fault, n).1;
      r.Success? ==>
        && Total(r.value) == n
        && (upsert ==> r.value.inserted == 0 && r.value.skipped == 0)
        && (!upsert ==> r.value.updated == 0)
    decreases n
  {
    if n > 0 {
      SeedRunCounts(c, docs, upsert, fault, n - 1);
      var (c1, r) := SeedRun(c, docs, upsert, fault, n - 1);
      assert CountsFit(r, upsert, n - 1);
      SeedNextCounts(c1, r, docs[n - 1], upsert, fault(n - 1), n - 1);
      assert CountsFit(SeedRun(c, docs, upsert, fault, n).1, upsert, n);
    }
  }

  /** Whether one of the first `n` entries makes `DocId` raise. */
  predicate BadIdBefore(docs: seq<Value>, n: nat)
    requires n <= |docs|
    decreases n
  {
    n > 0 && (BadIdBefore(docs, n - 1) || DocId(docs[n - 1]).Failure?)
  }

  lemma {:induction false} BadIdBeforeSpec(docs: seq<Value>, n: nat)
    requires n <= |docs|
    ensures BadIdBefore(docs, n) <==> exists i :: 0 <= i < n && DocId(docs[i]).Failure?
    decreases n
  {
    if n > 0 {
      BadIdBeforeSpec(docs, n - 1);
      if DocId(docs[n - 1]).Failure? {
        assert 0 <= n - 1 < n && DocId(docs[n - 1]).Failure?;
      } else {
        assert forall i :: 0 <= i < n && DocId(docs[i]).Failure? ==> i < n - 1;
      }
    }
  }

  lemma {:induction false} SeedRunRaisesBefore(c: map<string, Dict>, docs: seq<Value>, upsert: bool, fault: nat -> Option<WriteFault>, n: nat)
    requires n <= |docs|
    ensures SeedRun(c, docs, upsert, fault, n).1.Failure? <==> BadIdBefore(docs, n)
    decreases n
  {
    if n > 0 {
      SeedRunRaisesBefore(c, docs, upsert, fault, n - 1);
      var (c1, r) := SeedRun(c, docs, upsert, fault, n - 1);
      SeedNextRaises(c1, r, docs[n - 1], upsert, fault(n - 1));
    }
  }

  /** The run raises exactly when one of its entries is neither a dict nor free
      of "id". */
  lemma SeedRunRaises(c: map<string, Dict>, docs: seq<Value>, upsert: bool, fault: nat -> Option<WriteFault>, n: nat)
    requires n <= |docs|
    ensures SeedRun(c, docs, upsert, fault, n).1.Failure? <==> exists i :: 0 <= i < n && DocId(docs[i]).Failure?
  {
    SeedRunRaisesBefore(c, docs, upsert, fault, n);
    BadIdBeforeSpec(docs, n);
  }

  lemma SeedNextRaises(c: map<string, Dict>, r: Result<Stats, string>, doc: Value, upsert: bool, fault: Option<WriteFault>)
    ensures SeedNext(c, r, doc, upsert, fault).1.Failure? <==> r.Failure? || DocId(doc).Failure?
  {
  }

  /** Insert-only seeding never overwrites: every document already in the
      collection is still there, unchanged. */
  lemma {:induction false} SeedRunKeeps(c: map<string, Dict>, docs: seq<Value>, fault: nat -> Option<WriteFault>, n: nat)
    requires n <= |docs|
    ensures var c' := SeedRun(c, docs, false, fault, n).0;
      forall k :: k in c ==> k in c' && c'[k] == c[k]
    decreases n
  {
    if n > 0 {
      SeedRunKeeps(c, docs, fault, n - 1);
      var (c1, r) := SeedRun(c, docs, false, fault, n - 1);
      SeedOneKeeps(c1, docs[n - 1], fault(n - 1));
    }
  }

  // ---------------------------------------------------------------------------
  // Files and the seeds directory
  // ---------------------------------------------------------------------------

  /** What the outside world does for one seed file: its name, what
      `json.load` yields (or the error opening or decoding it raises), whether
      `connect_with_retry` connects, and what each write raises. */
  datatype SeedFile = SeedFile(name: string, content: Result<Value, string>, connects: bool, fault: nat -> Option<WriteFault>)

  function Collection(cluster: map<Keyspace, map<string, Dict>>, k: Keyspace): map<string, Dict> {
    if k in cluster then cluster[k] else map[]
  }

  /** `process_seed_file`: the cluster afterwards and whether the file seeded
      without a failed document. Every exception is caught there. */
  function SeedFileOutcome(cluster: map<Keyspace, map<string, Dict>>, f: SeedFile, upsert: bool): (map<Keyspace, map<string, Dict>>, bool) {
    match ParseFilename(f.name)
    case None => (cluster, false)
    case Some(k) =>
      if f.content.Failure? || LoadSeedData(f.content.value).Failure? || !f.connects then (cluster, false)
      else
        var docs := LoadSeedData(f.content.value).value;
        var (c, r) := SeedRun(Collection(cluster, k), docs, upsert, f.fault, |docs|);
        (cluster[k := c], r.Success? && r.value.failed == 0)
  }

  /** A file succeeds exactly when its name parses, its content loads as an
      object or list, the cluster connects, and seeding finishes with no
      failed document; a name that does not parse touches nothing. */
  lemma SeedFileOutcomeSpec(cluster: map<Keyspace, map<string, Dict>>, f: SeedFile, upsert: bool)
    ensures var (cluster', ok) := SeedFileOutcome(cluster, f, upsert);
      && (ok <==>
            ParseFilename(f.name).Some? && f.content.Success? && LoadSeedData(f.content.value).Success? && f.connects &&
            var docs := LoadSeedData(f.content.value).value;
            var r := SeedRun(Collection(cluster, ParseFilename(f.name).value), docs, upsert, f.fault, |docs|).1;
            r.Success? && r.value.failed == 0)
      && (ParseFilename(f.name).None? ==> cluster' == cluster)
      && (forall k :: k in cluster && Some(k) != ParseFilename(f.name) ==> k in cluster' && cluster'[k] == cluster[k])
  {
  }

  /** `[f for f in all_json_files if not self._is_example_file(f.name)]`. */
  function SeedFiles(files: seq<SeedFile>): (r: seq<SeedFile>)
    ensures |r| <= |files|
    ensures forall i :: 0 <= i < |r| ==> !IsExampleFile(r[i].name)
    decreases |files|
  {
    if files == [] then []
    else
      var rest := SeedFiles(files[..|files| - 1]);
      if IsExampleFile(files[|files| - 1].name) then rest else rest + [files[|files| - 1]]
  }

  /** The filter keeps every file that is not an example, as often as it
      occurs, and no other. */
  lemma {:induction false} SeedFilesMultiset(files: seq<SeedFile>)
    ensures forall f :: multiset(SeedFiles(files))[f] == if IsExampleFile(f.name) then 0 else multiset(files)[f]
    decreases |files|
  {
    if files != [] {
      var n := |files| - 1;
      var init, last := files[..n], files[n];
      assert files == init + [last];
      SeedFilesMultiset(init);
      SeedFilesSnoc(init, last);
    }
  }

  /** The filter on one more file: it is kept exactly when it is not an
      example. */
  lemma SeedFilesSnoc(init: seq<SeedFile>, f: SeedFile)
    ensures SeedFiles(init + [f]) == if IsExampleFile(f.name) then SeedFiles(init) else SeedFiles(init) + [f]
  {
    assert (init + [f])[..|init|] == init;
  }

  /** The positions of the non-example files, in glob order. */
  function KeptPositions(files: seq<SeedFile>): seq<nat>
    decreases |files|
  {
    if files == [] then []
    else
      var n := |files| - 1;
      KeptPositions(files[..n]) + (if IsExampleFile(files[n].name) then [] else [n])
  }

  /** The filter keeps glob order: the kept files are the files at the kept
      positions, and those positions strictly increase. */
  lemma {:induction false} SeedFilesOrder(files: seq<SeedFile>)
    ensures var idx := KeptPositions(files);
      && |idx| == |SeedFiles(files)|
      && (forall i :: 0 <= i < |idx| ==> idx[i] < |files| && SeedFiles(files)[i] == files[idx[i]])
      && (forall i, j :: 0 <= i < j < |idx| ==> idx[i] < idx[j])
    decreases |files|
  {
    if files != [] {
      var n := |files| - 1;
      var init, last := files[..n], files[n];
      assert files == init + [last];
      SeedFilesOrder(init);
      var rest := KeptPositions(init);
      var kept := SeedFiles(init);
      SeedFilesSnoc(init, last);
      var idx := KeptPositions(files);
      var now := SeedFiles(files);
      if IsExampleFile(last.name) {
        assert now == kept && idx == rest;
      } else {
        assert now == kept + [last] && idx == rest + [n];
      }
      forall i | 0 <= i < |idx| ensures idx[i] < |files| && now[i] == files[idx[i]] {
        if i < |rest| {
          assert idx[i] == rest[i] && now[i] == kept[i];
          assert init[rest[i]] == files[rest[i]];
        }
      }
    }
  }

  /** Every non-example position is a kept position. */
  lemma {:induction false} SeedFilesCover(files: seq<SeedFile>, j: nat)
    requires j < |files| && !IsExampleFile(files[j].name)
    ensures j in KeptPositions(files)
    decreases |files|
  {
    var n := |files| - 1;
    if j < n {
      assert files[..n][j] == files[j];
      SeedFilesCover(files[..n], j);
    }
  }

  function NonExampleCount(names: seq<string>): nat {
    if names == [] then 0
    else NonExampleCount(names[..|names| - 1]) + (if IsExampleFile(names[|names| - 1]) then 0 else 1)
  }

  function Names(files: seq<SeedFile>): (names: seq<string>)
    ensures |names| == |files|
    ensures forall i :: 0 <= i < |files| ==> names[i] == files[i].name
  {
    seq(|files|, i requires 0 <= i < |files| => files[i].name)
  }

  /** The filter keeps exactly the files that are not examples. */
  lemma {:induction false} SeedFilesCount(files: seq<SeedFile>)
    ensures |SeedFiles(files)| == NonExampleCount(Names(files))
    decreases |files|
  {
    if files != [] {
      SeedFilesCount(files[..|files| - 1]);
      assert Names(files)[..|files| - 1] == Names(files[..|files| - 1]);
    }
  }

  datatype DirStats = DirStats(processed: nat, succeeded: nat, failed: nat)

  /** One more file processed, and counted as succeeded or failed. */
  function Tally(st: DirStats, ok: bool): DirStats {
    DirStats(st.processed + 1, st.succeeded + (if ok then 1 else 0), st.failed + (if ok then 0 else 1))
  }

  /** The loop of `process_seeds_directory` over the first `n` seed files. */
  function DirRun(cluster: map<Keyspace, map<string, Dict>>, files: seq<SeedFile>, upsert: bool, n: nat): (map<Keyspace, map<string, Dict>>, DirStats)
    requires n <= |files|
    decreases n
  {
    if n == 0 then (cluster, DirStats(0, 0, 0))
    else
      var (c1, st) := DirRun(cluster, files, upsert, n - 1);
      var (c2, ok) := SeedFileOutcome(c1, files[n - 1], upsert);
      (c2, Tally(st, ok))
  }

  /** `process_seeds_directory`: `dirExists` says whether the directory exists
      and `found` is what `glob('*.json')` lists there. */
  function DirectoryOutcome(cluster: map<Keyspace, map<string, Dict>>, dirExists: bool, found: seq<SeedFile>, upsert: bool): (map<Keyspace, map<string, Dict>>, DirStats) {
    if !dirExists || found == [] then (cluster, DirStats(0, 0, 0))
    else
      var files := SeedFiles(found);
      if files == [] then (cluster, DirStats(0, 0, 0))
      else DirRun(cluster, files, upsert, |files|)
  }

  /** Every file processed is counted once as succeeded or failed. */
  lemma {:induction false} DirRunCounts(cluster: map<Keyspace, map<string, Dict>>, files: seq<SeedFile>, upsert: bool, n: nat)
    requires n <= |files|
    ensures var st := DirRun(cluster, files, upsert, n).1;
      st.processed == n && st.succeeded + st.failed == n
    decreases n
  {
    if n > 0 {
      DirRunCounts(cluster, files, upsert, n - 1);
    }
  }

  /** processed = succeeded + failed = the number of non-example files found;
      with no directory, nothing found or only examples, every count is 0 and
      nothing is written. */
  lemma DirectoryOutcomeSpec(cluster: map<Keyspace, map<string, Dict>>, dirExists: bool, found: seq<SeedFile>, upsert: bool)
    ensures var (cluster', st) := DirectoryOutcome(cluster, dirExists, found, upsert);
      && st.processed == st.succeeded + st.failed
      && st.processed == (if dirExists then NonExampleCount(Names(found)) else 0)
      && (st.processed == 0 ==> st == DirStats(0, 0, 0) && cluster' == cluster)
  {
    SeedFilesCount(found);
    var files := SeedFiles(found);
    if dirExists && files != [] {
      DirRunCounts(cluster, files, upsert, |files|);
    }
  }

  /** One more pass of `seed_collection`'s loop, from the counts so far. */
  lemma SeedRunNext(c: map<string, Dict>, docs: seq<Value>, upsert: bool, fault: nat -> Option<WriteFault>, i: nat,
                    c1: map<string, Dict>, st: Stats)
    requires i < |docs|
    requires SeedRun(c, docs, upsert, fault, i) == (c1, Success(st))
    ensures SeedOne(c1, docs[i], upsert, fault(i)).Failure? ==>
      SeedRun(c, docs, upsert, fault, i + 1) == (c1, Failure(SeedOne(c1, docs[i], upsert, fault(i)).error))
    ensures SeedOne(c1, docs[i], upsert, fault(i)).Success? ==>
      SeedRun(c, docs, upsert, fault, i + 1) ==
        (SeedOne(c1, docs[i], upsert, fault(i)).value.0, Success(Count(st, SeedOne(c1, docs[i], upsert, fault(i)).value.1)))
  {
  }

  /** Once an entry has raised, the later ones are not looked at. */
  lemma {:induction false} SeedRunStaysFailed(c: map<string, Dict>, docs: seq<Value>, upsert: bool, fault: nat -> Option<WriteFault>, i: nat, n: nat)
    requires i <= n <= |docs|
    requires SeedRun(c, docs, upsert, fault, i).1.Failure?
    ensures SeedRun(c, docs, upsert, fault, n) == SeedRun(c, docs, upsert, fault, i)
    decreases n
  {
    if n > i {
      SeedRunStaysFailed(c, docs, upsert, fault, i, n - 1);
    }
  }

  /** One more pass of `process_seeds_directory`'s loop. */
  lemma DirRunNext(cluster: map<Keyspace, map<string, Dict>>, files: seq<SeedFile>, upsert: bool, i: nat,
                   c1: map<Keyspace, map<string, Dict>>, st: DirStats)
    requires i < |files|
    requires DirRun(cluster, files, upsert, i) == (c1, st)
    ensures var (c2, ok) := SeedFileOutcome(c1, files[i], upsert);
      DirRun(cluster, files, upsert, i + 1) == (c2, Tally(st, ok))
  {
  }

  /** The loop of `seed_collection` over one collection: `stats` is the
      dict of four counters, each pass bumping the one its entry's outcome
      names. */
  method SeedDocuments(c0: map<string, Dict>, documents: seq<Value>, upsert: bool, fault: nat -> Option<WriteFault>)
    returns (c: map<string, Dict>, r: Result<Stats, string>)
    ensures (c, r) == SeedRun(c0, documents, upsert, fault, |documents|)
  {
    c := c0;
    var stats := Stats(0, 0, 0, 0);
    for idx := 0 to |documents|
      invariant SeedRun(c0, documents, upsert, fault, idx) == (c, Success(stats))
    {
      SeedRunNext(c0, documents, upsert, fault, idx, c, stats);
      var step := SeedOne(c, documents[idx], upsert, fault(idx));
      if step.Failure? {
        SeedRunStaysFailed(c0, documents, upsert, fault, idx + 1, |documents|);
        return c, Failure(step.error);
      }
      c, stats := step.value.0, Count(stats, step.value.1);
    }
    r := Success(stats);
  }

  // ---------------------------------------------------------------------------
  // The seeder object
  // ---------------------------------------------------------------------------

  /** `CouchbaseSeeder`. `hasController` is whether `self.controller` is set;
      `cluster` stands for the documents of the cluster it writes to. */
  class CouchbaseSeeder {
    const environment: string
    var hasController: bool
    var cluster: map<Keyspace, map<string, Dict>>

    constructor(environment: string, controllerGiven: bool, cluster: map<Keyspace, map<string, Dict>>)
      ensures this.environment == environment && hasController == controllerGiven && this.cluster == cluster
    {
      this.environment := environment;
      hasController := controllerGiven;
      this.cluster := cluster;
    }

    /** `seed_collection`: connect, then run the loop on the target
        collection. A connection that fails, or a TypeError from an entry, is
        raised to the caller; writes made before a TypeError stay. */
    method SeedCollection(k: Keyspace, documents: seq<Value>, upsert: bool, connects: bool, fault: nat -> Option<WriteFault>)
      returns (r: Result<Stats, string>)
      modifies this
      ensures hasController
      ensures !connects ==> cluster == old(cluster) && r.Failure?
      ensures connects ==>
        var (c, stats) := SeedRun(Collection(old(cluster), k), documents, upsert, fault, |documents|);
        cluster == old(cluster)[k := c] && r == stats
    {
      hasController := true;
      if !connects {
        return Failure("could not connect to the cluster");
      }
      var c;
      c, r := SeedDocuments(Collection(cluster, k), documents, upsert, fault);
      cluster := cluster[k := c];
    }

    /** `process_seed_file`. */
    method ProcessSeedFile(f: SeedFile, upsert: bool) returns (ok: bool)
      modifies this
      ensures (cluster, ok) == SeedFileOutcome(old(cluster), f, upsert)
    {
      var target := ParseFilename(f.name);
      if target.None? {
        return false;
      }
      if f.content.Failure? {
        return false;
      }
      var documents := LoadSeedData(f.content.value);
      if documents.Failure? {
        return false;
      }
      var stats := SeedCollection(target.value, documents.value, upsert, f.connects, f.fault);
      if stats.Failure? {
        return false;
      }
      return stats.value.failed == 0;
    }

    /** `process_seeds_directory`. */
    method ProcessSeedsDirectory(dirExists: bool, found: seq<SeedFile>, upsert: bool) returns (stats: DirStats)
      modifies this
      ensures (cluster, stats) == DirectoryOutcome(old(cluster), dirExists, found, upsert)
    {
      if !dirExists || found == [] {
        return DirStats(0, 0, 0);
      }
      var files := SeedFiles(found);
      if files == [] {
        return DirStats(0, 0, 0);
      }
      stats := DirStats(0, 0, 0);
      for i := 0 to |files|
        invariant DirRun(old(cluster), files, upsert, i) == (cluster, stats)
      {
        DirRunNext(old(cluster), files, upsert, i, cluster, stats);
        var success := ProcessSeedFile(files[i], upsert);
        stats := Tally(stats, success);
      }
    }
  }
}
