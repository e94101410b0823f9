// Multi-file writes as ordered dictionaries of before or after images.
//
// A tree maps file names to contents.  A write either stores a content or, with
// `None`, removes the file; a sequence of writes is applied left to right, as
// the loops over `writes.items()` and `before.items()` do.
module Trees {
  import opened Base

  datatype Write<+K, +V> = Write(key: K, value: Option<V>)

  function Put<K, V>(m: map<K, V>, w: Write<K, V>): map<K, V> {
    match w.value
    case None => m - {w.key}
    case Some(v) => m[w.key := v]
  }

  // The first n writes, in order.
  function ApplyTo<K, V>(m: map<K, V>, ws: seq<Write<K, V>>, n: nat): map<K, V>
    requires n <= |ws|
  {
    if n == 0 then m else Put(ApplyTo(m, ws, n - 1), ws[n - 1])
  }

  function Apply<K, V>(m: map<K, V>, ws: seq<Write<K, V>>): map<K, V> {
    ApplyTo(m, ws, |ws|)
  }

  function Keys<K, V>(ws: seq<Write<K, V>>): set<K> {
    set i | 0 <= i < |ws| :: ws[i].key
  }

  ghost predicate DistinctKeys<K, V>(ws: seq<Write<K, V>>) {
    forall i, j | 0 <= i < j < |ws| :: ws[i].key != ws[j].key
  }

  // What each written file holds before the transaction touches it.
  function Before<K, V>(m: map<K, V>, ws: seq<Write<K, V>>): seq<Write<K, V>> {
    seq(|ws|, i requires 0 <= i < |ws| => Write(ws[i].key, Get(m, ws[i].key)))
  }

  lemma {:induction false} BeforeKeys<K, V>(m: map<K, V>, ws: seq<Write<K, V>>)
    ensures Keys(Before(m, ws)) == Keys(ws)
  {
    var b := Before(m, ws);
    assert forall i | 0 <= i < |ws| :: b[i].key == ws[i].key;
  }

  ghost predicate AgreeOutside<K, V>(a: map<K, V>, b: map<K, V>, keys: set<K>) {
    a - keys == b - keys
  }

  // Two trees with the same content under every name are the same tree.
  lemma {:induction false} SameTree<K, V>(a: map<K, V>, b: map<K, V>)
    requires forall k :: Get(a, k) == Get(b, k)
    ensures a == b
  {
    assert forall k :: k in a <==> Get(a, k).Some?;
    assert forall k :: k in b <==> Get(b, k).Some?;
    assert forall k | k in a :: Some(a[k]) == Get(a, k) == Get(b, k) == Some(b[k]);
  }

  // The last of the first n writes to a file, if any.
  function Last<K(==), V>(ws: seq<Write<K, V>>, n: nat, k: K): Option<Option<V>>
    requires n <= |ws|
  {
    if n == 0 then None
    else if ws[n - 1].key == k then Some(ws[n - 1].value)
    else Last(ws, n - 1, k)
  }

  // Each file ends with its last write, or with what it held.
  lemma {:induction false} ApplyAt<K, V>(m: map<K, V>, ws: seq<Write<K, V>>, n: nat, k: K)
    requires n <= |ws|
    ensures Get(ApplyTo(m, ws, n), k) == (match Last(ws, n, k) case None => Get(m, k) case Some(v) => v)
  {
    if n > 0 {
      ApplyAt(m, ws, n - 1, k);
    }
  }

  lemma {:induction false} LastKey<K, V>(ws: seq<Write<K, V>>, n: nat, k: K)
    requires n <= |ws|
    ensures Last(ws, n, k).None? <==> forall i | 0 <= i < n :: ws[i].key != k
    ensures Last(ws, n, k).Some? ==> exists i :: 0 <= i < n && ws[i] == Write(k, Last(ws, n, k).value)
  {
    if n > 0 {
      LastKey(ws, n - 1, k);
      if ws[n - 1].key == k {
        assert ws[n - 1] == Write(k, Last(ws, n, k).value);
      }
    }
  }

  // With distinct names, each written file ends with exactly its own write.
  lemma {:induction false} LastDistinct<K, V>(ws: seq<Write<K, V>>, n: nat, i: nat)
    requires DistinctKeys(ws) && i < n <= |ws|
    ensures Last(ws, n, ws[i].key) == Some(ws[i].value)
  {
    LastKey(ws, n, ws[i].key);
  }

  lemma {:induction false} AgreesOutside<K, V>(a: map<K, V>, b: map<K, V>, keys: set<K>)
    requires forall k | k !in keys :: Get(a, k) == Get(b, k)
    ensures AgreeOutside(a, b, keys)
  {
    forall k ensures Get(a - keys, k) == Get(b - keys, k) {
      assert k !in keys ==> Get(a, k) == Get(b, k);
    }
    SameTree(a - keys, b - keys);
  }

  lemma {:induction false} AgreesAt<K, V>(a: map<K, V>, b: map<K, V>, keys: set<K>, k: K)
    requires AgreeOutside(a, b, keys) && k !in keys
    ensures Get(a, k) == Get(b, k)
  {
    assert Get(a, k) == Get(a - keys, k);
    assert Get(b, k) == Get(b - keys, k);
  }

  lemma {:induction false} AgreesEverywhere<K, V>(a: map<K, V>, b: map<K, V>)
    requires AgreeOutside(a, b, {})
    ensures a == b
  {
    assert a - {} == a && b - {} == b;
  }

  lemma {:induction false} ApplyOutside<K, V>(m: map<K, V>, ws: seq<Write<K, V>>, n: nat)
    requires n <= |ws|
    ensures AgreeOutside(m, ApplyTo(m, ws, n), Keys(ws))
  {
    forall k | k !in Keys(ws) ensures Get(m, k) == Get(ApplyTo(m, ws, n), k) {
      ApplyAt(m, ws, n, k);
      LastKey(ws, n, k);
    }
    AgreesOutside(m, ApplyTo(m, ws, n), Keys(ws));
  }

  // The before images undo any partial or complete writing of their files,
  // in whatever state an interruption left them.
  lemma {:induction false} Restore<K, V>(m: map<K, V>, dirty: map<K, V>, ws: seq<Write<K, V>>)
    requires AgreeOutside(m, dirty, Keys(ws))
    ensures Apply(dirty, Before(m, ws)) == m
  {
    var b := Before(m, ws);
    BeforeKeys(m, ws);
    forall k ensures Get(Apply(dirty, b), k) == Get(m, k) {
      ApplyAt(dirty, b, |b|, k);
      LastKey(b, |b|, k);
      if k !in Keys(ws) {
        AgreesAt(m, dirty, Keys(ws), k);
        assert k !in Keys(b);
      }
    }
    SameTree(Apply(dirty, b), m);
  }

  // An overlay hides whatever lies under the files it names.
  lemma {:induction false} OverlayHides<K, V>(a: map<K, V>, b: map<K, V>, ws: seq<Write<K, V>>)
    requires AgreeOutside(a, b, Keys(ws))
    ensures Apply(a, ws) == Apply(b, ws)
  {
    forall k ensures Get(Apply(a, ws), k) == Get(Apply(b, ws), k) {
      ApplyAt(a, ws, |ws|, k);
      ApplyAt(b, ws, |ws|, k);
      LastKey(ws, |ws|, k);
      if k !in Keys(ws) {
        AgreesAt(a, b, Keys(ws), k);
      }
    }
    SameTree(Apply(a, ws), Apply(b, ws));
  }

  lemma {:induction false} PutAgrees<K, V>(m: map<K, V>, w: Write<K, V>, keys: set<K>)
    requires w.key in keys
    ensures AgreeOutside(Put(m, w), m, keys)
  {
    assert Put(m, w) - keys == m - keys;
  }
}
