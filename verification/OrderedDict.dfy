/** A dictionary that keeps insertion order: assigning to a present key keeps its place, a new key goes
    last. The order is observable where the source iterates over a dictionary. */
module OrderedDict {
  import opened Options

  datatype Entry<K, V> = Entry(key: K, value: V)

  function Get<K(==), V>(d: seq<Entry<K, V>>, k: K): Option<V> {
    if d == [] then None else if d[0].key == k then Some(d[0].value) else Get(d[1..], k)
  }

  function Put<K(==), V>(d: seq<Entry<K, V>>, k: K, v: V): (r: seq<Entry<K, V>>)
    ensures r != []
  {
    if d == [] then [Entry(k, v)]
    else if d[0].key == k then [Entry(k, v)] + d[1..]
    else [d[0]] + Put(d[1..], k, v)
  }

  function Remove<K(==), V>(d: seq<Entry<K, V>>, k: K): seq<Entry<K, V>> {
    if d == [] then []
    else if d[0].key == k then Remove(d[1..], k)
    else [d[0]] + Remove(d[1..], k)
  }

  predicate Distinct<K(==), V>(d: seq<Entry<K, V>>) {
    d != [] ==> Get(d[1..], d[0].key).None? && Distinct(d[1..])
  }

  lemma {:induction false} GetPut<K, V>(d: seq<Entry<K, V>>, k: K, v: V, k': K)
    ensures Get(Put(d, k, v), k') == if k' == k then Some(v) else Get(d, k')
  {
    if d == [] {
    } else if d[0].key == k {
      assert Put(d, k, v)[1..] == d[1..];
    } else {
      GetPut(d[1..], k, v, k');
      assert Put(d, k, v)[1..] == Put(d[1..], k, v);
    }
  }

  lemma {:induction false} GetRemove<K, V>(d: seq<Entry<K, V>>, k: K, k': K)
    ensures Get(Remove(d, k), k') == if k' == k then None else Get(d, k')
  {
    if d == [] {
    } else {
      GetRemove(d[1..], k, k');
      if d[0].key != k {
        assert Remove(d, k)[1..] == Remove(d[1..], k);
      }
    }
  }

  lemma {:induction false} PutKeepsDistinct<K, V>(d: seq<Entry<K, V>>, k: K, v: V)
    requires Distinct(d)
    ensures Distinct(Put(d, k, v))
  {
    if d == [] {
    } else if d[0].key == k {
      assert Put(d, k, v)[1..] == d[1..];
    } else {
      PutKeepsDistinct(d[1..], k, v);
      GetPut(d[1..], k, v, d[0].key);
      assert Put(d, k, v)[1..] == Put(d[1..], k, v);
    }
  }

  lemma {:induction false} RemoveKeepsDistinct<K, V>(d: seq<Entry<K, V>>, k: K)
    requires Distinct(d)
    ensures Distinct(Remove(d, k))
  {
    if d == [] {
    } else {
      RemoveKeepsDistinct(d[1..], k);
      GetRemove(d[1..], k, d[0].key);
      if d[0].key != k {
        assert Remove(d, k)[1..] == Remove(d[1..], k);
      }
    }
  }

  /** In a dictionary with distinct keys, the entries are exactly what Get finds. */
  lemma {:induction false} EntryIffGet<K, V>(d: seq<Entry<K, V>>, k: K, v: V)
    requires Distinct(d)
    ensures Entry(k, v) in d <==> Get(d, k) == Some(v)
  {
    if d == [] {
    } else {
      EntryIffGet(d[1..], k, v);
      assert d == [d[0]] + d[1..];
    }
  }

  /** Storing what is already there changes nothing, order included. */
  lemma {:induction false} PutSame<K, V>(d: seq<Entry<K, V>>, k: K, v: V)
    requires Get(d, k) == Some(v)
    ensures Put(d, k, v) == d
  {
    if d[0].key == k {
      assert d == [Entry(k, v)] + d[1..];
    } else {
      PutSame(d[1..], k, v);
    }
  }
}
