/** The collection and string helpers of templates/api/src/utils/helpers.py:
    clean_dict, paginate_list, sanitize_string, chunk_list and the camelCase
    key conversion. A Python dict is an ordered `PyValue.Dict`. */
module Helpers {
  import opened Wrappers
  import opened PyValue
  import opened Text

  // ---------------------------------------------------------------------------
  // clean_dict
  // ---------------------------------------------------------------------------

  /** Whether clean_dict keeps an entry with value `v`. */
  predicate Kept(v: Value, removeNone: bool, removeEmpty: bool) {
    !(removeNone && v == Null) && !(removeEmpty && IsEmptyContainer(v))
  }

  /** The entries clean_dict keeps, in input order. */
  function Cleaned(data: Dict, removeNone: bool, removeEmpty: bool): (r: Dict)
    ensures |r| <= |data|
    decreases |data|
  {
    if data == [] then []
    else
      var last := data[|data| - 1];
      Cleaned(data[..|data| - 1], removeNone, removeEmpty)
        + (if Kept(last.1, removeNone, removeEmpty) then [last] else [])
  }

  /** Cleaning keeps order: cleaning `a + b` is cleaning `a`, then `b`. */
  lemma {:induction false} CleanedAppend(a: Dict, b: Dict, removeNone: bool, removeEmpty: bool)
    ensures Cleaned(a + b, removeNone, removeEmpty)
         == Cleaned(a, removeNone, removeEmpty) + Cleaned(b, removeNone, removeEmpty)
    decreases |b|
  {
    if b == [] {
      assert a + b == a;
    } else {
      assert (a + b)[..|a + b| - 1] == a + b[..|b| - 1];
      CleanedAppend(a, b[..|b| - 1], removeNone, removeEmpty);
    }
  }

  /** An entry survives exactly when it was there and its value is kept:
      `None` goes iff `remove_none`, `""`, `[]` and `{}` go iff
      `remove_empty`, and nothing else is touched. */
  lemma {:induction false} CleanedMember(data: Dict, removeNone: bool, removeEmpty: bool, e: (string, Value))
    ensures e in Cleaned(data, removeNone, removeEmpty) <==> e in data && Kept(e.1, removeNone, removeEmpty)
    decreases |data|
  {
    if data != [] {
      CleanedMember(data[..|data| - 1], removeNone, removeEmpty, e);
      assert data == data[..|data| - 1] + [data[|data| - 1]];
    }
  }

  /** The surviving keys are among the input keys. */
  lemma CleanedKeys(data: Dict, removeNone: bool, removeEmpty: bool, k: string)
    requires HasKey(Cleaned(data, removeNone, removeEmpty), k)
    ensures HasKey(data, k)
  {
    var r := Cleaned(data, removeNone, removeEmpty);
    var i :| 0 <= i < |r| && Keys(r)[i] == k;
    CleanedMember(data, removeNone, removeEmpty, r[i]);
    var j :| 0 <= j < |data| && data[j] == r[i];
    assert Keys(data)[j] == k;
  }

  /** In a dict, the next key is not among those already kept. */
  lemma CleanedFresh(data: Dict, i: nat, removeNone: bool, removeEmpty: bool)
    requires UniqueKeys(data) && i < |data|
    ensures !HasKey(Cleaned(data[..i], removeNone, removeEmpty), data[i].0)
  {
    var r := Cleaned(data[..i], removeNone, removeEmpty);
    forall m | 0 <= m < |r| ensures Keys(r)[m] != data[i].0 {
      CleanedMember(data[..i], removeNone, removeEmpty, r[m]);
      var j :| 0 <= j < i && data[..i][j] == r[m];
      assert Keys(data)[j] == r[m].0;
    }
  }

  /** clean_dict: a fresh dict filled entry by entry. */
  method CleanDict(data: Dict, removeNone: bool := true, removeEmpty: bool := false) returns (cleaned: Dict)
    requires UniqueKeys(data)
    ensures cleaned == Cleaned(data, removeNone, removeEmpty)
  {
    cleaned := [];
    for i := 0 to |data|
      invariant cleaned == Cleaned(data[..i], removeNone, removeEmpty)
    {
      var (key, value) := data[i];
      assert data[..i + 1][..i] == data[..i];
      if removeNone && value == Null {
        continue;
      }
      if removeEmpty && IsEmptyContainer(value) {
        continue;
      }
      CleanedFresh(data, i, removeNone, removeEmpty);
      PutNew(cleaned, key, value);
      cleaned := Put(cleaned, key, value);
    }
    assert data[..|data|] == data;
  }

  // ---------------------------------------------------------------------------
  // paginate_list
  // ---------------------------------------------------------------------------

  /** The dict paginate_list returns. */
  datatype Page<T> = Page(items: seq<T>, total: nat, page: int, pageSize: int, hasNext: bool, hasPrev: bool)

  function PaginateList<T>(items: seq<T>, page: int := 1, pageSize: int := 20): Page<T> {
    var start := (page - 1) * pageSize;
    var end := start + pageSize;
    Page(PySlice(items, start, end), |items|, page, pageSize, end < |items|, page > 1)
  }

  lemma ProductNonNegative(a: int, b: int)
    requires a >= 0 && b >= 0
    ensures a * b >= 0
  {
  }

  /** For a 1-based page and a non-negative size, the page holds the items
      with indices in `[(page-1)*size, page*size)`, there is a next page
      exactly when `page*size` is below the total, and a previous one exactly
      from page 2 on. */
  lemma PaginateSpec<T>(items: seq<T>, page: int, pageSize: int)
    requires page >= 1 && pageSize >= 0
    ensures var p := PaginateList(items, page, pageSize);
      var start := (page - 1) * pageSize;
      && 0 <= start
      && p.items == (if start < |items| then items[start..Min(start + pageSize, |items|)] else [])
      && |p.items| <= pageSize
      && p.total == |items|
      && (p.hasNext <==> page * pageSize < |items|)
      && (p.hasPrev <==> page > 1)
      && p.page == page && p.pageSize == pageSize
  {
    var start := (page - 1) * pageSize;
    ProductNonNegative(page - 1, pageSize);
    assert start + pageSize == page * pageSize;
    PySliceNonNegative(items, start, start + pageSize);
  }

  /** Every item is on exactly the page its index says: item `k` is at
      position `k % size` of page `k / size + 1`. */
  lemma PaginateIndex<T>(items: seq<T>, pageSize: int, k: nat)
    requires pageSize > 0 && k < |items|
    ensures var p := PaginateList(items, k / pageSize + 1, pageSize);
      k % pageSize < |p.items| && p.items[k % pageSize] == items[k]
  {
    var page := k / pageSize + 1;
    var start := (page - 1) * pageSize;
    assert start == k / pageSize * pageSize;
    assert start + k % pageSize == k;
    PaginateSpec(items, page, pageSize);
  }

  // ---------------------------------------------------------------------------
  // sanitize_string
  // ---------------------------------------------------------------------------

  /** `strip`, then `[:max_length]` when `max_length` is given, non-zero and
      below the stripped length. */
  function SanitizeString(text: string, maxLength: Option<int> := None): string {
    var s := Strip(text);
    if maxLength.Some? && maxLength.value != 0 && |s| > maxLength.value then PySlice(s, 0, maxLength.value)
    else s
  }

  /** No limit (or a zero one) leaves the stripped text; a positive limit
      keeps the longest prefix of it that fits; a negative one drops that
      many characters from the end, as Python slicing does. */
  lemma SanitizeSpec(text: string, maxLength: Option<int>)
    ensures var s, r := Strip(text), SanitizeString(text, maxLength);
      match maxLength
      case None => r == s
      case Some(n) =>
        if n == 0 then r == s
        else if n > 0 then r == s[..Min(n, |s|)] && |r| <= n
        else r == (if |s| + n > 0 then s[..|s| + n] else [])
  {
    var s := Strip(text);
    if maxLength.Some? && maxLength.value != 0 {
      var n := maxLength.value;
      if n > 0 && |s| > n {
        assert SanitizeString(text, maxLength) == PySlice(s, 0, n) == s[..n];
      } else if n < 0 && |s| > n {
        assert SanitizeString(text, maxLength) == PySlice(s, 0, n);
      }
    }
  }

  // ---------------------------------------------------------------------------
  // chunk_list
  // ---------------------------------------------------------------------------

  function Flatten<T>(chunks: seq<seq<T>>): seq<T>
    decreases |chunks|
  {
    if chunks == [] then [] else Flatten(chunks[..|chunks| - 1]) + chunks[|chunks| - 1]
  }

  /** chunk_list, with the generator's output collected. `range` refuses a
      zero step (`ValueError`) and yields nothing for a negative one. */
  method ChunkList<T>(items: seq<T>, chunkSize: int) returns (r: Result<seq<seq<T>>, string>)
    ensures r.Failure? <==> chunkSize == 0
    ensures chunkSize < 0 ==> r == Success([])
    ensures chunkSize > 0 ==> (
      && r.Success?
      && Flatten(r.value) == items
      && (forall j :: 0 <= j < |r.value| ==> 0 < |r.value[j]| <= chunkSize)
      && (forall j :: 0 <= j < |r.value| - 1 ==> |r.value[j]| == chunkSize))
  {
    if chunkSize == 0 {
      return Failure("range() arg 3 must not be zero");
    }
    var chunks: seq<seq<T>> := [];
    var i := 0;
    while i < |items|
      invariant i >= 0
      invariant chunkSize < 0 ==> chunks == []
      invariant chunkSize > 0 ==> Flatten(chunks) == items[..Min(i, |items|)]
      invariant forall j :: 0 <= j < |chunks| ==> 0 < |chunks[j]| <= chunkSize
      invariant forall j :: 0 <= j < |chunks| - 1 ==> |chunks[j]| == chunkSize
      invariant i < |items| ==> forall j :: 0 <= j < |chunks| ==> |chunks[j]| == chunkSize
      decreases |items| - i
    {
      if chunkSize < 0 {
        break;
      }
      var chunk := PySlice(items, i, i + chunkSize);
      PySliceNonNegative(items, i, i + chunkSize);
      assert items[..Min(i + chunkSize, |items|)] == items[..i] + chunk;
      chunks := chunks + [chunk];
      i := i + chunkSize;
    }
    if chunkSize > 0 {
      assert items[..Min(i, |items|)] == items;
    }
    r := Success(chunks);
  }

  // ---------------------------------------------------------------------------
  // convert_keys_to_camel_case
  // ---------------------------------------------------------------------------

  /** `str.title()` on ASCII: a letter is upper-cased after a non-letter (or
      at the start) and lower-cased after a letter; other characters stay. */
  function TitleFrom(s: string, afterLetter: bool): (r: string)
    ensures |r| == |s|
    decreases |s|
  {
    if s == [] then []
    else
      var c := if !IsLetter(s[0]) then s[0] else if afterLetter then LowerChar(s[0]) else UpperChar(s[0]);
      [c] + TitleFrom(s[1..], IsLetter(s[0]))
  }

  function Title(s: string): string {
    TitleFrom(s, false)
  }

  /** Title-casing keeps every non-letter where it was and introduces none. */
  lemma {:induction false} TitleKeepsOthers(s: string, afterLetter: bool, c: char)
    requires !IsLetter(c)
    ensures c in TitleFrom(s, afterLetter) <==> c in s
    decreases |s|
  {
    if s != [] {
      TitleKeepsOthers(s[1..], IsLetter(s[0]), c);
      assert s == [s[0]] + s[1..];
    }
  }

  function Titles(parts: seq<string>): (r: seq<string>)
    ensures |r| == |parts| && forall i :: 0 <= i < |parts| ==> r[i] == Title(parts[i])
  {
    seq(|parts|, i requires 0 <= i < |parts| => Title(parts[i]))
  }

  /** to_camel_case: the first `_`-separated component as it is, the rest
      title-cased and concatenated. */
  function ToCamelCase(s: string): string {
    var components := Split(s, '_');
    components[0] + Join(Titles(components[1..]), "")
  }

  lemma {:induction false} JoinFree(parts: seq<string>, c: char)
    requires forall i :: 0 <= i < |parts| ==> c !in parts[i]
    ensures c !in Join(parts, "")
    decreases |parts|
  {
    if |parts| > 1 {
      JoinFree(parts[1..], c);
    }
  }

  /** A camelCase name has no underscore left, begins with the first
      component unchanged, and is that component alone when there was no
      underscore. */
  lemma CamelCaseShape(s: string)
    ensures '_' !in ToCamelCase(s)
    ensures StartsWith(ToCamelCase(s), Split(s, '_')[0])
    ensures '_' !in s ==> ToCamelCase(s) == s
  {
    var components := Split(s, '_');
    SplitPartsFree(s, '_');
    var titled := Titles(components[1..]);
    forall i | 0 <= i < |titled| ensures '_' !in titled[i] {
      assert components[1..][i] == components[i + 1];
      TitleKeepsOthers(components[i + 1], false, '_');
    }
    JoinFree(titled, '_');
    var r := ToCamelCase(s);
    assert r[..|components[0]|] == components[0];
    if '_' !in s {
      SplitWithout(s, '_');
    }
  }

  /** Converting a name twice changes nothing more. */
  lemma CamelCaseIdempotent(s: string)
    ensures ToCamelCase(ToCamelCase(s)) == ToCamelCase(s)
  {
    CamelCaseShape(s);
    CamelCaseShape(ToCamelCase(s));
  }

  /** After a letter, a run of lower-case letters stays as it is. */
  lemma {:induction false} TitleLowerRun(s: string)
    requires forall i :: 0 <= i < |s| ==> IsLower(s[i])
    ensures TitleFrom(s, true) == s
    decreases |s|
  {
    if s != [] {
      TitleLowerRun(s[1..]);
      assert s == [s[0]] + s[1..];
    }
  }

  /** A lower-case snake_case component comes out capitalised. */
  lemma TitleLowerWord(s: string)
    requires s != [] && forall i :: 0 <= i < |s| ==> IsLower(s[i])
    ensures Title(s) == [UpperChar(s[0])] + s[1..]
  {
    TitleLowerRun(s[1..]);
  }

  lemma UserNameParts()
    ensures Split("user_name", '_') == ["user", "name"]
  {
    assert "user" + ['_'] + "name" == "user_name";
    assert ["user"] + ["name"] == ["user", "name"];
    SplitAfter("user", '_', "name");
    SplitWithout("name", '_');
  }

  lemma NameTitle()
    ensures Title("name") == "Name"
  {
    assert "name"[1..] == "ame";
    assert ['N'] + "ame" == "Name";
    TitleLowerWord("name");
    assert UpperChar('n') == 'N';
  }

  lemma CamelCaseExample()
    ensures ToCamelCase("user_name") == "userName"
  {
    assert "user" + "Name" == "userName";
    assert ["user", "name"][1..] == ["name"];
    UserNameParts();
    NameTitle();
    assert Titles(["name"]) == ["Name"];
    assert Join(["Name"], "") == "Name";
  }

  /** Two keys that convert to the same name leave one entry, holding the
      value of the later key. */
  lemma ConvertKeysCollide()
    ensures ConvertKeys(Object([("user_name", Int(1)), ("userName", Int(2))])) == Object([("userName", Int(2))])
  {
    var v := Object([("user_name", Int(1)), ("userName", Int(2))]);
    CamelPairsAt(v, 2);
    CamelPairsBoth(v);
    PutTwice("userName", Int(1), Int(2));
  }

  lemma CamelPairsBoth(v: Value)
    requires v == Object([("user_name", Int(1)), ("userName", Int(2))])
    requires forall i :: 0 <= i < 2 ==>
      CamelPairs(v, 2)[i] == (ToCamelCase(v.entries[i].0), ConvertKeys(v.entries[i].1))
    ensures CamelPairs(v, 2) == [("userName", Int(1)), ("userName", Int(2))]
  {
    CamelCaseExample();
    CamelCaseUnchanged();
  }

  lemma CamelCaseUnchanged()
    ensures ToCamelCase("userName") == "userName"
  {
    SplitWithout("userName", '_');
    assert ["userName"][1..] == [];
    assert Titles([]) == [];
    assert Join([], "") == "";
    assert "userName" + "" == "userName";
  }

  /** Writing one key twice into an empty dict keeps the second value. */
  lemma PutTwice(k: string, a: Value, b: Value)
    ensures PutAll([], [(k, a), (k, b)]) == [(k, b)]
  {
    var es := [(k, a), (k, b)];
    assert es[..1] == [(k, a)] && es[..1][..0] == [];
    assert PutAll([], es[..1]) == [(k, a)];
  }

  /** convert_keys_to_camel_case: dict keys renamed at every depth, lists
      converted element by element, other values unchanged. The dict
      comprehension writes each renamed key in turn, so two keys that
      converge keep the first one's place and the last one's value. */
  function ConvertKeys(v: Value): (r: Value)
    decreases v, 1, 0
  {
    match v
    case Object(entries) => Object(PutAll([], CamelPairs(v, |entries|)))
    case List(items) => List(ConvertItems(v, |items|))
    case _ => v
  }

  /** The first `n` `(to_camel_case(k), convert(v))` pairs the comprehension
      writes. */
  function CamelPairs(parent: Value, n: nat): (r: Dict)
    requires parent.Object? && n <= |parent.entries|
    ensures |r| == n
    decreases parent, 0, n
  {
    if n == 0 then []
    else
      var e := parent.entries[n - 1];
      assert e in parent.entries;
      CamelPairs(parent, n - 1) + [(ToCamelCase(e.0), ConvertKeys(e.1))]
  }

  function ConvertItems(parent: Value, n: nat): (r: seq<Value>)
    requires parent.List? && n <= |parent.items|
    ensures |r| == n
    decreases parent, 0, n
  {
    if n == 0 then []
    else
      assert parent.items[n - 1] in parent.items;
      ConvertItems(parent, n - 1) + [ConvertKeys(parent.items[n - 1])]
  }

  /** A converted dict holds one key per distinct converted input key, none
      with an underscore, each once; lists keep their length and are
      converted elementwise; anything else comes back unchanged. */
  lemma ConvertKeysSpec(v: Value)
    ensures v.Object? ==>
      var r := ConvertKeys(v).entries;
      && UniqueKeys(r)
      && (forall k :: HasKey(r, k) <==> exists j :: 0 <= j < |v.entries| && ToCamelCase(v.entries[j].0) == k)
      && (forall k :: HasKey(r, k) ==> '_' !in k)
    ensures v.List? ==>
      var r := ConvertKeys(v).items;
      |r| == |v.items| && forall i :: 0 <= i < |r| ==> r[i] == ConvertKeys(v.items[i])
    ensures !v.Object? && !v.List? ==> ConvertKeys(v) == v
  {
    if v.Object? {
      var pairs := CamelPairs(v, |v.entries|);
      var r := ConvertKeys(v).entries;
      assert r == PutAll([], pairs);
      PutAllUnique([], pairs);
      CamelPairsAt(v, |v.entries|);
      forall k ensures HasKey(r, k) <==> exists j :: 0 <= j < |v.entries| && ToCamelCase(v.entries[j].0) == k {
        PutAllHas([], pairs, k);
        if k in Keys(pairs) {
          var j :| 0 <= j < |pairs| && Keys(pairs)[j] == k;
          assert ToCamelCase(v.entries[j].0) == k;
        }
        if exists j :: 0 <= j < |v.entries| && ToCamelCase(v.entries[j].0) == k {
          var j :| 0 <= j < |v.entries| && ToCamelCase(v.entries[j].0) == k;
          assert Keys(pairs)[j] == k;
        }
      }
      forall k | HasKey(r, k) ensures '_' !in k {
        var j :| 0 <= j < |v.entries| && ToCamelCase(v.entries[j].0) == k;
        CamelCaseShape(v.entries[j].0);
      }
    } else if v.List? {
      forall i | 0 <= i < |v.items| ensures ConvertKeys(v).items[i] == ConvertKeys(v.items[i]) {
        ConvertItemsAt(v, |v.items|, i);
      }
    }
  }

  /** Each converted key holds the converted value of the last input key
      that converts to it. */
  lemma ConvertKeysLast(v: Value, j: nat)
    requires v.Object? && j < |v.entries|
    requires forall i :: j < i < |v.entries| ==> ToCamelCase(v.entries[i].0) != ToCamelCase(v.entries[j].0)
    ensures Get(ConvertKeys(v).entries, ToCamelCase(v.entries[j].0)) == Some(ConvertKeys(v.entries[j].1))
  {
    var pairs := CamelPairs(v, |v.entries|);
    CamelPairsAt(v, |v.entries|);
    PutAllLast([], pairs, j);
  }

  /** When no two keys convert to the same name, the converted dict has one
      entry per input entry, in the same order, each renamed and converted. */
  lemma ConvertKeysDistinct(v: Value)
    requires v.Object?
    requires forall i, j :: 0 <= i < j < |v.entries| ==> ToCamelCase(v.entries[i].0) != ToCamelCase(v.entries[j].0)
    ensures |ConvertKeys(v).entries| == |v.entries|
    ensures forall j :: 0 <= j < |v.entries| ==>
      ConvertKeys(v).entries[j] == (ToCamelCase(v.entries[j].0), ConvertKeys(v.entries[j].1))
  {
    var pairs := CamelPairs(v, |v.entries|);
    CamelPairsAt(v, |v.entries|);
    assert UniqueKeys(pairs) by {
      assert forall i :: 0 <= i < |pairs| ==> Keys(pairs)[i] == ToCamelCase(v.entries[i].0);
    }
    PutAllFresh(pairs);
  }

  lemma {:induction false} CamelPairsAt(parent: Value, n: nat)
    requires parent.Object? && n <= |parent.entries|
    ensures forall i :: 0 <= i < n ==>
      CamelPairs(parent, n)[i] == (ToCamelCase(parent.entries[i].0), ConvertKeys(parent.entries[i].1))
    decreases n
  {
    if n > 0 {
      CamelPairsAt(parent, n - 1);
    }
  }

  lemma {:induction false} ConvertItemsAt(parent: Value, n: nat, i: nat)
    requires parent.List? && i < n <= |parent.items|
    ensures ConvertItems(parent, n)[i] == ConvertKeys(parent.items[i])
    decreases n
  {
    if i < n - 1 {
      ConvertItemsAt(parent, n - 1, i);
    }
  }

}
