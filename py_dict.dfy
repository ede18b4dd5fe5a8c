/** Python's `dict` with string keys, as the rulebook scripts use it: the
    entries in insertion order (the order `json.dumps` writes them in),
    `d.get(k)` / `d[k]`, `d[k] = v` and `d.setdefault(k, v)`. */
module PyDict {
  import opened Wrappers

  datatype Entry<V> = Entry(key: string, value: V)

  type Dict<V> = seq<Entry<V>>

  /** The keys, in insertion order. */
  function Keys<V>(d: Dict<V>): (keys: seq<string>)
    ensures |keys| == |d|
    decreases |d|
  {
    if d == [] then [] else [d[0].key] + Keys(d[1..])
  }

  /** `d.get(k)`; `d[k]` raises `KeyError` exactly when this is `None`. */
  function Get<V>(d: Dict<V>, k: string): (r: Option<V>)
    ensures r.None? <==> k !in Keys(d)
    decreases |d|
  {
    if d == [] then None
    else if d[0].key == k then Some(d[0].value) else Get(d[1..], k)
  }

  lemma GetSnoc<V>(d: Dict<V>, k: string, v: V, j: string)
    ensures Get(d + [Entry(k, v)], j) == if Get(d, j).Some? then Get(d, j) else if j == k then Some(v) else None
    decreases |d|
  {
    if d != [] {
      assert (d + [Entry(k, v)])[1..] == d[1..] + [Entry(k, v)];
      GetSnoc(d[1..], k, v, j);
    }
  }

  /** `d[k] = v`: `k` gets `v` and no other key's value changes. */
  function Put<V>(d: Dict<V>, k: string, v: V): (r: Dict<V>)
    ensures Get(r, k) == Some(v)
    ensures forall j :: j != k ==> Get(r, j) == Get(d, j)
    decreases |d|
  {
    if d == [] then [Entry(k, v)]
    else if d[0].key == k then [Entry(k, v)] + d[1..]
    else
      var rest := Put(d[1..], k, v);
      assert ([d[0]] + rest)[1..] == rest;
      [d[0]] + rest
  }

  /** A key already present keeps its place, a new key goes last. */
  lemma {:induction false} PutKeys<V>(d: Dict<V>, k: string, v: V)
    ensures Keys(Put(d, k, v)) == if Get(d, k).Some? then Keys(d) else Keys(d) + [k]
    decreases |d|
  {
    if d != [] {
      if d[0].key == k {
        assert ([Entry(k, v)] + d[1..])[1..] == d[1..];
      } else {
        PutKeys(d[1..], k, v);
      }
    }
  }

  /** `d.setdefault(k, v)`, as the dict it leaves: `k` keeps its value if it
      has one and gets `v` otherwise, and no other key changes. The value
      the call returns is then `Get(r, k)`. */
  function SetDefault<V>(d: Dict<V>, k: string, v: V): (r: Dict<V>)
    ensures Get(r, k) == Some(Get(d, k).GetOr(v))
    ensures forall j :: j != k ==> Get(r, j) == Get(d, j)
  {
    if Get(d, k).Some? then d
    else
      assert forall j :: Get(d + [Entry(k, v)], j) == if Get(d, j).Some? then Get(d, j) else if j == k then Some(v) else None by {
        forall j ensures Get(d + [Entry(k, v)], j) == if Get(d, j).Some? then Get(d, j) else if j == k then Some(v) else None {
          GetSnoc(d, k, v, j);
        }
      }
      d + [Entry(k, v)]
  }

  /** A key already present keeps its place, a new key goes last. */
  lemma {:induction false} SetDefaultKeys<V>(d: Dict<V>, k: string, v: V)
    ensures Keys(SetDefault(d, k, v)) == if Get(d, k).Some? then Keys(d) else Keys(d) + [k]
    decreases |d|
  {
    if Get(d, k).None? && d != [] {
      assert (d + [Entry(k, v)])[1..] == d[1..] + [Entry(k, v)];
      SetDefaultKeys(d[1..], k, v);
    }
  }

  /** Writing back the value a key already has changes nothing. */
  lemma {:induction false} PutSame<V>(d: Dict<V>, k: string)
    requires Get(d, k).Some?
    ensures Put(d, k, Get(d, k).value) == d
    decreases |d|
  {
    if d[0].key != k {
      PutSame(d[1..], k);
    }
  }

  /** The same keys in the same order, each value passed through `f`: what a
      loop over `d.values()` that edits each value in place leaves. */
  function MapValues<V>(d: Dict<V>, f: V -> V): (r: Dict<V>)
    ensures |r| == |d|
    ensures forall i :: 0 <= i < |d| ==> r[i] == Entry(d[i].key, f(d[i].value))
  {
    seq(|d|, i requires 0 <= i < |d| => Entry(d[i].key, f(d[i].value)))
  }

  /** Mapping keeps every key and its place, and maps what each key holds. */
  lemma {:induction false} MapValuesGet<V>(d: Dict<V>, f: V -> V, k: string)
    ensures Keys(MapValues(d, f)) == Keys(d)
    ensures Get(MapValues(d, f), k) == match Get(d, k) case None => None case Some(v) => Some(f(v))
    decreases |d|
  {
    if d != [] {
      assert MapValues(d, f)[1..] == MapValues(d[1..], f);
      MapValuesGet(d[1..], f, k);
    }
  }
}
