/**
  Python dictionaries with string keys, as association lists that keep
  insertion order. `Put` overwrites an existing key in place and appends a new
  one at the end; `Delete` removes the key. Lookups use the first entry with
  the key, and both updates keep keys unique.
 */
module Dicts {
  import opened Wrappers

  type Dict<V> = seq<(string, V)>

  function Keys<V>(d: Dict<V>): (ks: seq<string>)
    ensures |ks| == |d|
    ensures forall i :: 0 <= i < |d| ==> ks[i] == d[i].0
  {
    seq(|d|, i requires 0 <= i < |d| => d[i].0)
  }

  predicate HasKey<V>(d: Dict<V>, k: string) {
    k in Keys(d)
  }

  predicate UniqueKeys<V>(d: Dict<V>) {
    forall i, j :: 0 <= i < j < |d| ==> d[i].0 != d[j].0
  }

  /** Position of the first entry with key `k`. */
  function IndexOf<V>(d: Dict<V>, k: string): (r: Option<nat>)
    ensures r.Some? ==> r.value < |d| && d[r.value].0 == k
    ensures r.Some? ==> forall j :: 0 <= j < r.value ==> d[j].0 != k
    ensures r.None? <==> !HasKey(d, k)
  {
    if d == [] then None
    else if d[0].0 == k then Some(0)
    else
      match IndexOf(d[1..], k)
      case None => None
      case Some(i) => Some(i + 1)
  }

  /** `d[k]`, or None when `k not in d`. */
  function Get<V>(d: Dict<V>, k: string): (r: Option<V>)
    ensures r.Some? <==> HasKey(d, k)
  {
    match IndexOf(d, k)
    case None => None
    case Some(i) => Some(d[i].1)
  }

  /** `d[k] = v`: overwrite in place when `k` is present, append otherwise. */
  function Put<V>(d: Dict<V>, k: string, v: V): (r: Dict<V>)
    ensures |r| == |d| || r == d + [(k, v)]
    ensures HasKey(d, k) ==> Keys(r) == Keys(d)
    ensures !HasKey(d, k) ==> r == d + [(k, v)]
  {
    match IndexOf(d, k)
    case None => d + [(k, v)]
    case Some(i) => d[i := (k, v)]
  }

  /** `del d[k]`: every entry with key `k` is removed, the others keep their order. */
  function Delete<V>(d: Dict<V>, k: string): (r: Dict<V>)
    ensures !HasKey(r, k)
    ensures |r| <= |d|
    ensures HasKey(d, k) ==> |r| < |d|
    ensures !HasKey(d, k) ==> r == d
  {
    if d == [] then []
    else if d[0].0 == k then Delete(d[1..], k)
    else [d[0]] + Delete(d[1..], k)
  }

  lemma GetPut<V>(d: Dict<V>, k: string, v: V, k': string)
    ensures Get(Put(d, k, v), k') == if k' == k then Some(v) else Get(d, k')
  {
    var r := Put(d, k, v);
    match IndexOf(d, k)
    case None =>
      if k' != k {
        match IndexOf(d, k')
        case None =>
          assert !HasKey(r, k');
        case Some(j) =>
          assert IndexOf(r, k') == Some(j) by {
            IndexOfPrefix(d, [(k, v)], k');
          }
      } else {
        assert IndexOf(r, k) == Some(|d|) by {
          IndexOfAppendMissing(d, (k, v));
        }
      }
    case Some(i) =>
      assert Keys(r) == Keys(d);
      IndexOfSameKeys(d, r, k');
  }

  lemma IndexOfSameKeys<V>(d: Dict<V>, r: Dict<V>, k: string)
    requires Keys(r) == Keys(d)
    ensures IndexOf(r, k) == IndexOf(d, k)
  {
    if d != [] {
      assert Keys(r[1..]) == Keys(d[1..]);
      IndexOfSameKeys(d[1..], r[1..], k);
    }
  }

  lemma IndexOfPrefix<V>(d: Dict<V>, e: Dict<V>, k: string)
    requires HasKey(d, k)
    ensures IndexOf(d + e, k) == IndexOf(d, k)
  {
    if d[0].0 != k {
      assert (d + e)[1..] == d[1..] + e;
      assert HasKey(d[1..], k) by {
        var i :| 0 <= i < |d| && Keys(d)[i] == k;
        assert Keys(d[1..])[i - 1] == k;
      }
      IndexOfPrefix(d[1..], e, k);
    }
  }

  lemma IndexOfAppendMissing<V>(d: Dict<V>, e: (string, V))
    requires !HasKey(d, e.0)
    ensures IndexOf(d + [e], e.0) == Some(|d|)
  {
    var de := d + [e];
    assert Keys(de)[|d|] == e.0;
    forall j | 0 <= j < |d| ensures de[j].0 != e.0 {
      assert Keys(d)[j] == d[j].0;
    }
  }

  /** After `del d[k]`, `k` is gone and every other lookup is as before. */
  lemma {:induction false} GetDelete<V>(d: Dict<V>, k: string, q: string)
    ensures Get(Delete(d, k), q) == if q == k then None else Get(d, q)
  {
    if d != [] && q != k {
      GetDelete(d[1..], k, q);
      if d[0].0 == k {
        assert Delete(d, k) == Delete(d[1..], k);
        assert Get(d, q) == Get(d[1..], q);
      } else if d[0].0 != q {
        var r := [d[0]] + Delete(d[1..], k);
        assert Delete(d, k) == r && r[1..] == Delete(d[1..], k);
        assert Get(r, q) == Get(r[1..], q);
        assert Get(d, q) == Get(d[1..], q);
      }
    }
  }

  /** The entry a lookup finds is the first one with the key. */
  lemma {:induction false} GetFirst<V>(d: Dict<V>, i: nat, k: string)
    requires i < |d| && d[i].0 == k
    requires forall j :: 0 <= j < i ==> d[j].0 != k
    ensures Get(d, k) == Some(d[i].1)
  {
    if i > 0 {
      GetFirst(d[1..], i - 1, k);
    }
  }

  /** With unique keys, the entry at position `i` is what `d[key]` finds. */
  lemma GetAt<V>(d: Dict<V>, i: nat)
    requires UniqueKeys(d) && i < |d|
    ensures Get(d, d[i].0) == Some(d[i].1)
  {
    assert Keys(d)[i] == d[i].0;
  }

  /** The entry `d[k]` finds is one of the entries of `d`. */
  lemma GetEntry<V>(d: Dict<V>, k: string)
    ensures Get(d, k).Some? ==> (k, Get(d, k).value) in d
  {
    if Get(d, k).Some? {
      var i := IndexOf(d, k).value;
      assert d[i] == (k, Get(d, k).value);
    }
  }

  /** Deleting keeps a subset of the entries. */
  lemma {:induction false} DeleteEntries<V>(d: Dict<V>, k: string)
    ensures forall e :: e in Delete(d, k) ==> e in d && e.0 != k
  {
    if d != [] {
      DeleteEntries(d[1..], k);
    }
  }

  /** After `d[k] = v` every entry is an old one or the new one. */
  lemma PutEntries<V>(d: Dict<V>, k: string, v: V)
    ensures forall e :: e in Put(d, k, v) ==> e in d || e == (k, v)
  {
    match IndexOf(d, k)
    case None =>
    case Some(i) =>
      forall e | e in Put(d, k, v) ensures e in d || e == (k, v) {
        var j :| 0 <= j < |d| && Put(d, k, v)[j] == e;
        if j != i {
          assert e == d[j];
        }
      }
  }
}
