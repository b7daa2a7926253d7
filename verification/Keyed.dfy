/** Lists of keyed entries, updated in place by key: the shape of a sync result's hook statuses and
    resource details. An update replaces the first entry with the key, or appends a new one. */
module Keyed {
  import opened Kube

  datatype Entry<K, V> = Entry(key: K, value: V)

  function Lookup<K(==), V>(s: seq<Entry<K, V>>, k: K): Option<V> {
    if s == [] then None
    else if s[0].key == k then Some(s[0].value)
    else Lookup(s[1..], k)
  }

  function Put<K(==), V>(s: seq<Entry<K, V>>, k: K, v: V): (r: seq<Entry<K, V>>)
    ensures |r| > 0
    ensures |s| <= |r| <= |s| + 1
  {
    if s == [] then [Entry(k, v)]
    else if s[0].key == k then [Entry(k, v)] + s[1..]
    else [s[0]] + Put(s[1..], k, v)
  }

  ghost predicate Distinct<K(!new), V(!new)>(s: seq<Entry<K, V>>) {
    forall i, j :: 0 <= i < j < |s| ==> s[i].key != s[j].key
  }

  lemma {:induction false} LookupPut<K, V>(s: seq<Entry<K, V>>, k: K, v: V, q: K)
    ensures Lookup(Put(s, k, v), q) == if q == k then Some(v) else Lookup(s, q)
  {
    if s != [] && s[0].key != k {
      LookupPut(s[1..], k, v, q);
      assert Put(s, k, v)[1..] == Put(s[1..], k, v);
    } else if s != [] {
      assert Put(s, k, v)[1..] == s[1..];
    }
  }

  /** An entry of the updated list is the one written or an old one with another key. */
  lemma {:induction false} PutEntries<K, V>(s: seq<Entry<K, V>>, k: K, v: V)
    ensures forall i :: 0 <= i < |s| ==> Put(s, k, v)[i].key == s[i].key
    ensures forall i :: 0 <= i < |s| ==> Put(s, k, v)[i] == s[i] || Put(s, k, v)[i] == Entry(k, v)
    ensures |Put(s, k, v)| == |s| + 1 ==>
              Put(s, k, v)[|s|] == Entry(k, v) && forall i :: 0 <= i < |s| ==> s[i].key != k
    ensures exists i :: 0 <= i < |Put(s, k, v)| && Put(s, k, v)[i] == Entry(k, v)
  {
    hide Put;
    var i := FirstWith(s, k);
    PutPlace(s, k, v, i);
    assert Put(s, k, v)[i] == Entry(k, v);
  }

  lemma {:induction false} FirstWith<K, V>(s: seq<Entry<K, V>>, k: K) returns (i: nat)
    ensures i <= |s| && (forall j :: 0 <= j < i ==> s[j].key != k) && (i < |s| ==> s[i].key == k)
  {
    i := 0;
    while i < |s| && s[i].key != k
      invariant i <= |s| && forall j :: 0 <= j < i ==> s[j].key != k
    {
      i := i + 1;
    }
  }

  lemma {:induction false} PutDistinct<K(!new), V(!new)>(s: seq<Entry<K, V>>, k: K, v: V)
    requires Distinct(s)
    ensures Distinct(Put(s, k, v))
  {
    PutEntries(s, k, v);
  }

  /** Lookup finds exactly what is stored: the entry at some index, and with distinct keys at any index. */
  lemma {:induction false} LookupIsEntry<K, V>(s: seq<Entry<K, V>>, k: K)
    ensures Lookup(s, k).Some? ==> exists i :: 0 <= i < |s| && s[i] == Entry(k, Lookup(s, k).value)
    ensures Lookup(s, k).None? ==> forall i :: 0 <= i < |s| ==> s[i].key != k
  {
    if s == [] {
    } else if s[0].key == k {
      assert s[0] == Entry(k, Lookup(s, k).value);
    } else {
      LookupIsEntry(s[1..], k);
      if Lookup(s, k).Some? {
        var i :| 0 <= i < |s[1..]| && s[1..][i] == Entry(k, Lookup(s, k).value);
        assert s[i + 1] == Entry(k, Lookup(s, k).value);
      } else {
        forall i | 0 <= i < |s| ensures s[i].key != k {
          if i > 0 { assert s[i] == s[1..][i - 1]; }
        }
      }
    }
  }

  lemma {:induction false} EntryIsLookup<K(!new), V(!new)>(s: seq<Entry<K, V>>, i: nat)
    requires Distinct(s) && i < |s|
    ensures Lookup(s, s[i].key) == Some(s[i].value)
  {
    LookupIsEntry(s, s[i].key);
    var o := Lookup(s, s[i].key);
    if o.Some? {
      var j :| 0 <= j < |s| && s[j] == Entry(s[i].key, o.value);
    }
  }

  /** Writing what an entry already holds changes nothing. */
  lemma {:induction false} PutSame<K(!new), V(!new)>(s: seq<Entry<K, V>>, i: nat)
    requires Distinct(s) && i < |s|
    ensures Put(s, s[i].key, s[i].value) == s
  {
    if i > 0 {
      PutSame(s[1..], i - 1);
      assert s == [s[0]] + s[1..];
    }
  }

  /** The update replaces the first entry with the key, or else appends. */
  lemma {:induction false} PutPlace<K, V>(s: seq<Entry<K, V>>, k: K, v: V, i: nat)
    requires i <= |s| && forall j :: 0 <= j < i ==> s[j].key != k
    ensures i < |s| && s[i].key == k ==> Put(s, k, v) == s[i := Entry(k, v)]
    ensures i == |s| ==> Put(s, k, v) == s + [Entry(k, v)]
  {
    if i > 0 {
      PutPlace(s[1..], k, v, i - 1);
      assert s == [s[0]] + s[1..];
    }
  }

  /** The update as the controller writes it: scan, replace in place and stop, or append. */
  method Upsert<K(==), V>(s: seq<Entry<K, V>>, k: K, v: V) returns (r: seq<Entry<K, V>>)
    ensures r == Put(s, k, v)
  {
    hide Put;
    for i := 0 to |s|
      invariant forall j :: 0 <= j < i ==> s[j].key != k
    {
      if s[i].key == k {
        PutPlace(s, k, v, i);
        return s[i := Entry(k, v)];
      }
    }
    PutPlace(s, k, v, |s|);
    return s + [Entry(k, v)];
  }
}
