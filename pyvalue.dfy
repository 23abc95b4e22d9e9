/** The Python values that flow through the modelled code: JSON-shaped data
    (None, booleans, integers, strings, lists and string-keyed dicts).
    A Python dict keeps insertion order, so it is modelled as a sequence of
    (key, value) entries; writing an existing key replaces its value in place,
    writing a new key appends it. */
module PyValue {
  import opened Wrappers

  datatype Value =
    | Null
    | Bool(b: bool)
    | Int(i: int)
    | Str(s: string)
    | List(items: seq<Value>)
    | Object(entries: seq<(string, Value)>)

  type Dict = seq<(string, Value)>

  function Keys(d: Dict): (ks: seq<string>)
    ensures |ks| == |d|
    ensures forall i :: 0 <= i < |d| ==> ks[i] == d[i].0
  {
    seq(|d|, i requires 0 <= i < |d| => d[i].0)
  }

  function Values(d: Dict): (vs: seq<Value>)
    ensures |vs| == |d|
    ensures forall i :: 0 <= i < |d| ==> vs[i] == d[i].1
  {
    seq(|d|, i requires 0 <= i < |d| => d[i].1)
  }

  lemma KeysAppend(a: Dict, b: Dict)
    ensures Keys(a + b) == Keys(a) + Keys(b)
    ensures Values(a + b) == Values(a) + Values(b)
  {
  }

  /** Every key occurs once, as in any Python dict. */
  predicate UniqueKeys(d: Dict) {
    var ks := Keys(d);
    forall i, j :: 0 <= i < j < |ks| ==> ks[i] != ks[j]
  }

  predicate HasKey(d: Dict, k: string) {
    k in Keys(d)
  }

  /** `d.get(k)`, with absence as `None`. */
  function Get(d: Dict, k: string): (r: Option<Value>)
    ensures r.None? <==> !HasKey(d, k)
    ensures r.Some? ==> (k, r.value) in d
    decreases |d|
  {
    if d == [] then None
    else if d[0].0 == k then Some(d[0].1)
    else
      assert forall i :: 1 <= i < |d| ==> Keys(d)[i] == Keys(d[1..])[i - 1];
      Get(d[1..], k)
  }

  /** `d[k] = v`: the value under an existing key is replaced where it
      stands, a new key is appended. */
  function Put(d: Dict, k: string, v: Value): (r: Dict)
    ensures Get(r, k) == Some(v)
    ensures forall k' :: k' != k ==> Get(r, k') == Get(d, k')
    decreases |d|
  {
    if d == [] then [(k, v)]
    else
      var rest := if d[0].0 == k then d[1..] else Put(d[1..], k, v);
      var e := if d[0].0 == k then (k, v) else d[0];
      assert d == [d[0]] + d[1..];
      assert forall k' :: Get([e] + rest, k') == (if k' == e.0 then Some(e.1) else Get(rest, k')) by {
        forall k' { GetCons(e, rest, k'); }
      }
      assert forall k' :: Get(d, k') == (if k' == d[0].0 then Some(d[0].1) else Get(d[1..], k')) by {
        forall k' { GetCons(d[0], d[1..], k'); }
      }
      [e] + rest
  }

  /** Where the key of `d[k] = v` ends up. */
  lemma PutKeys(d: Dict, k: string, v: Value)
    ensures Keys(Put(d, k, v)) == if HasKey(d, k) then Keys(d) else Keys(d) + [k]
  {
    if HasKey(d, k) {
      PutKeysExisting(d, k, v);
    } else {
      PutKeysNew(d, k, v);
    }
  }

  lemma {:induction false} PutKeysExisting(d: Dict, k: string, v: Value)
    requires HasKey(d, k)
    ensures Keys(Put(d, k, v)) == Keys(d)
    decreases |d|
  {
    assert d == [d[0]] + d[1..];
    KeysCons(d[0], d[1..]);
    if d[0].0 == k {
      KeysCons((k, v), d[1..]);
    } else {
      PutKeysExisting(d[1..], k, v);
      KeysCons(d[0], Put(d[1..], k, v));
    }
  }

  lemma {:induction false} PutKeysNew(d: Dict, k: string, v: Value)
    requires !HasKey(d, k)
    ensures Keys(Put(d, k, v)) == Keys(d) + [k]
    decreases |d|
  {
    if d != [] {
      assert d == [d[0]] + d[1..];
      KeysCons(d[0], d[1..]);
      PutKeysNew(d[1..], k, v);
      KeysCons(d[0], Put(d[1..], k, v));
      assert ([d[0].0] + Keys(d[1..])) + [k] == [d[0].0] + (Keys(d[1..]) + [k]);
    }
  }

  /** After `d[k] = v` the dict has `k` and the keys it had before. */
  lemma PutHas(d: Dict, k: string, v: Value, key: string)
    ensures HasKey(Put(d, k, v), key) <==> HasKey(d, key) || key == k
  {
    if key != k {
      assert Get(Put(d, k, v), key) == Get(d, key);
    }
  }

  /** In a dict, looking up an entry's key finds that entry's value. */
  lemma {:induction false} GetAt(d: Dict, i: nat)
    requires UniqueKeys(d) && i < |d|
    ensures Get(d, d[i].0) == Some(d[i].1)
    decreases i
  {
    if i > 0 {
      assert Keys(d)[0] != Keys(d)[i];
      assert UniqueKeys(d[1..]) by {
        assert forall m :: 0 <= m < |d| - 1 ==> Keys(d[1..])[m] == Keys(d)[m + 1];
      }
      GetAt(d[1..], i - 1);
    }
  }

  /** `for k, v in es: d[k] = v`. */
  function PutAll(d: Dict, es: Dict): Dict
    decreases |es|
  {
    if es == [] then d else Put(PutAll(d, es[..|es| - 1]), es[|es| - 1].0, es[|es| - 1].1)
  }

  lemma {:induction false} PutAllUnique(d: Dict, es: Dict)
    requires UniqueKeys(d)
    ensures UniqueKeys(PutAll(d, es))
    decreases |es|
  {
    if es != [] {
      PutAllUnique(d, es[..|es| - 1]);
      PutUnique(PutAll(d, es[..|es| - 1]), es[|es| - 1].0, es[|es| - 1].1);
    }
  }

  /** The keys after the writes: the old ones and every key written. */
  lemma {:induction false} PutAllHas(d: Dict, es: Dict, k: string)
    ensures HasKey(PutAll(d, es), k) <==> HasKey(d, k) || k in Keys(es)
    decreases |es|
  {
    if es != [] {
      var init, last := es[..|es| - 1], es[|es| - 1];
      assert es == init + [last];
      KeysAppend(init, [last]);
      PutAllHas(d, init, k);
      PutHas(PutAll(d, init), last.0, last.1, k);
    }
  }

  /** The last write wins: after the writes, a key holds the value of the
      last entry written under it. */
  lemma {:induction false} PutAllLast(d: Dict, es: Dict, j: nat)
    requires j < |es| && forall i :: j < i < |es| ==> es[i].0 != es[j].0
    ensures Get(PutAll(d, es), es[j].0) == Some(es[j].1)
    decreases |es|
  {
    var init, last := es[..|es| - 1], es[|es| - 1];
    if j < |es| - 1 {
      assert init[j] == es[j];
      PutAllLast(d, init, j);
    }
  }

  /** A key no entry writes keeps its value. */
  lemma {:induction false} PutAllUntouched(d: Dict, es: Dict, k: string)
    requires k !in Keys(es)
    ensures Get(PutAll(d, es), k) == Get(d, k)
    decreases |es|
  {
    if es != [] {
      var init := es[..|es| - 1];
      assert Keys(es)[|es| - 1] == es[|es| - 1].0;
      assert k !in Keys(init) by {
        forall i | 0 <= i < |init| ensures Keys(init)[i] != k {
          assert Keys(es)[i] == Keys(init)[i];
        }
      }
      PutAllUntouched(d, init, k);
    }
  }

  /** Writing entries with distinct keys into an empty dict builds exactly
      those entries, in order. */
  lemma {:induction false} PutAllFresh(es: Dict)
    requires UniqueKeys(es)
    ensures PutAll([], es) == es
    decreases |es|
  {
    if es != [] {
      var init, last := es[..|es| - 1], es[|es| - 1];
      UniqueInit(es);
      PutAllFresh(init);
      PutNew(init, last.0, last.1);
      InitLast(es);
    }
  }

  lemma InitLast<T>(s: seq<T>)
    requires s != []
    ensures s[..|s| - 1] + [s[|s| - 1]] == s
  {
  }

  /** Dropping the last entry of a dict with distinct keys leaves distinct
      keys, none of them the last one's. */
  lemma UniqueInit(es: Dict)
    requires es != [] && UniqueKeys(es)
    ensures UniqueKeys(es[..|es| - 1]) && !HasKey(es[..|es| - 1], es[|es| - 1].0)
  {
    var init := es[..|es| - 1];
    assert forall i :: 0 <= i < |init| ==> Keys(init)[i] == Keys(es)[i];
    assert Keys(es)[|es| - 1] == es[|es| - 1].0;
  }

  /** Writing a key the dict lacks appends the entry. */
  lemma {:induction false} PutNew(d: Dict, k: string, v: Value)
    requires !HasKey(d, k)
    ensures Put(d, k, v) == d + [(k, v)]
    decreases |d|
  {
    if d != [] {
      assert d == [d[0]] + d[1..];
      KeysCons(d[0], d[1..]);
      PutNew(d[1..], k, v);
      assert [d[0]] + (d[1..] + [(k, v)]) == d + [(k, v)];
    }
  }

  lemma KeysCons(e: (string, Value), d: Dict)
    ensures Keys([e] + d) == [e.0] + Keys(d)
  {
  }

  lemma GetCons(e: (string, Value), d: Dict, k: string)
    ensures Get([e] + d, k) == if e.0 == k then Some(e.1) else Get(d, k)
  {
    assert ([e] + d)[1..] == d;
  }

  lemma PutUnique(d: Dict, k: string, v: Value)
    requires UniqueKeys(d)
    ensures UniqueKeys(Put(d, k, v))
  {
    PutKeys(d, k, v);
  }

  /** `{key: value for key, value in d.items() if key != k}`: the entries
      under every other key, in their original order. */
  function Without(d: Dict, k: string): (r: Dict)
    ensures !HasKey(r, k)
    ensures forall e :: e in r <==> e in d && e.0 != k
    ensures forall k' :: k' != k ==> Get(r, k') == Get(d, k')
    decreases |d|
  {
    if d == [] then []
    else
      var rest := Without(d[1..], k);
      if d[0].0 == k then rest
      else
        KeysCons(d[0], rest);
        [d[0]] + rest
  }

  lemma {:induction false} WithoutUnique(d: Dict, k: string)
    requires UniqueKeys(d)
    ensures UniqueKeys(Without(d, k))
    decreases |d|
  {
    if d != [] {
      assert UniqueKeys(d[1..]) by {
        assert forall i :: 0 <= i < |d| - 1 ==> Keys(d[1..])[i] == Keys(d)[i + 1];
      }
      WithoutUnique(d[1..], k);
      var rest := Without(d[1..], k);
      if d[0].0 != k {
        forall i | 0 <= i < |d| - 1 ensures d[1..][i].0 != d[0].0 {
          assert Keys(d)[i + 1] == d[1..][i].0;
        }
        forall i | 0 <= i < |rest| ensures Keys(rest)[i] != d[0].0 {
          assert rest[i] in d[1..];
        }
        assert Keys([d[0]] + rest) == [d[0].0] + Keys(rest);
      }
    }
  }

  /** Removing a key the dict does not have changes nothing. */
  lemma {:induction false} WithoutAbsent(d: Dict, k: string)
    requires !HasKey(d, k)
    ensures Without(d, k) == d
    decreases |d|
  {
    if d != [] {
      assert Keys(d) == [d[0].0] + Keys(d[1..]);
      WithoutAbsent(d[1..], k);
      assert [d[0]] + d[1..] == d;
    }
  }

  lemma {:induction false} WithoutAppend(a: Dict, b: Dict, k: string)
    ensures Without(a + b, k) == Without(a, k) + Without(b, k)
    decreases |a|
  {
    if a == [] {
      assert a + b == b;
    } else {
      assert (a + b)[1..] == a[1..] + b;
      WithoutAppend(a[1..], b, k);
    }
  }

  /** Pairs the i-th key with the i-th value. */
  function Zip(ks: seq<string>, vs: seq<Value>): (d: Dict)
    requires |ks| == |vs|
    ensures Keys(d) == ks && Values(d) == vs
  {
    seq(|ks|, i requires 0 <= i < |ks| => (ks[i], vs[i]))
  }

  /** `d.get(k)` as the value Python sees: `None` when the key is absent. */
  function GetOrNull(d: Dict, k: string): Value {
    match Get(d, k)
    case Some(v) => v
    case None => Null
  }

  /** The empty containers `""`, `[]` and `{}`: exactly the values Python
      finds equal to one of them. */
  predicate IsEmptyContainer(v: Value) {
    v == Str("") || v == List([]) || v == Object([])
  }
}
