/**
 * Insertion-ordered string-keyed maps, the shape of a JavaScript `Map<string, V>` and of a
 * plain object iterated with `for ... in`, `Object.keys` or `Map.forEach`.
 */
module OrderedMap {
  import opened Wrappers

  /** Entries in insertion order. */
  type Entries<V> = seq<(string, V)>

  function KeySet<V>(m: Entries<V>): set<string>
  {
    set i | 0 <= i < |m| :: m[i].0
  }

  lemma KeySetCons<V>(x: (string, V), m: Entries<V>)
    ensures KeySet([x] + m) == {x.0} + KeySet(m)
  {
    var xm := [x] + m;
    forall k | k in KeySet(m) ensures k in KeySet(xm) {
      var i :| 0 <= i < |m| && m[i].0 == k;
      assert xm[i + 1] == m[i];
    }
    forall k | k in KeySet(xm) ensures k in {x.0} + KeySet(m) {
      var i :| 0 <= i < |xm| && xm[i].0 == k;
      if i > 0 { assert xm[i] == m[i - 1]; }
    }
    assert xm[0] == x;
  }

  /** The keys in iteration order. */
  function Keys<V>(m: Entries<V>): seq<string>
  {
    if m == [] then [] else [m[0].0] + Keys(m[1..])
  }

  /** What every Map and object has: no key twice. */
  ghost predicate UniqueKeys<V>(m: Entries<V>)
  {
    forall i, j :: 0 <= i < j < |m| ==> m[i].0 != m[j].0
  }

  /** `m.get(k)` / `obj[k]`: `None` stands for `undefined`. */
  function Get<V>(m: Entries<V>, k: string): (r: Option<V>)
    ensures r.Some? <==> k in KeySet(m)
    ensures r.Some? ==> exists i :: 0 <= i < |m| && m[i] == (k, r.value)
  {
    if m == [] then None
    else if m[0].0 == k then Some(m[0].1)
    else
      assert KeySet(m) == {m[0].0} + KeySet(m[1..]);
      var r := Get(m[1..], k);
      assert r.Some? ==> exists i :: 0 <= i < |m| && m[i] == (k, r.value) by {
        if r.Some? {
          var i :| 0 <= i < |m[1..]| && m[1..][i] == (k, r.value);
          assert m[i + 1] == (k, r.value);
        }
      }
      r
  }

  /**
   * `m.set(k, v)` / `obj[k] = v`: an existing key keeps its position and takes the new value,
   * a new key goes last.
   */
  function Put<V>(m: Entries<V>, k: string, v: V): (r: Entries<V>)
    ensures Get(r, k) == Some(v)
    ensures forall k' :: k' != k ==> Get(r, k') == Get(m, k')
    ensures KeySet(r) == KeySet(m) + {k}
  {
    if m == [] then [(k, v)]
    else if m[0].0 == k then
      KeySetCons(m[0], m[1..]);
      KeySetCons((k, v), m[1..]);
      [(k, v)] + m[1..]
    else
      var rest := Put(m[1..], k, v);
      KeySetCons(m[0], m[1..]);
      KeySetCons(m[0], rest);
      [m[0]] + rest
  }

  /** `set` keeps the iteration order of existing keys and appends a new key last. */
  lemma {:induction false} PutOrder<V>(m: Entries<V>, k: string, v: V)
    ensures Keys(Put(m, k, v)) == if k in KeySet(m) then Keys(m) else Keys(m) + [k]
  {
    if m != [] {
      KeySetCons(m[0], m[1..]);
      if m[0].0 == k {
        assert ([(k, v)] + m[1..])[1..] == m[1..];
      } else {
        var rest := Put(m[1..], k, v);
        PutOrder(m[1..], k, v);
        assert ([m[0]] + rest)[1..] == rest;
      }
    }
  }

  /** The tail of a duplicate-free map is duplicate-free and lacks the head's key. */
  lemma UniqueTail<V>(m: Entries<V>)
    requires UniqueKeys(m) && m != []
    ensures UniqueKeys(m[1..]) && m[0].0 !in KeySet(m[1..])
  {
    forall i, j | 0 <= i < j < |m[1..]| ensures m[1..][i].0 != m[1..][j].0 {
      assert m[1..][i] == m[i + 1] && m[1..][j] == m[j + 1];
    }
    forall i | 0 <= i < |m[1..]| ensures m[1..][i].0 != m[0].0 {
      assert m[1..][i] == m[i + 1];
    }
  }

  /** A key absent from a duplicate-free map can be put in front of it. */
  lemma UniqueCons<V>(x: (string, V), rest: Entries<V>)
    requires UniqueKeys(rest) && x.0 !in KeySet(rest)
    ensures UniqueKeys([x] + rest)
  {
    var r := [x] + rest;
    forall i, j | 0 <= i < j < |r| ensures r[i].0 != r[j].0 {
      if i == 0 {
        assert r[j] == rest[j - 1];
      } else {
        assert r[i] == rest[i - 1] && r[j] == rest[j - 1];
      }
    }
  }

  /** `set` never duplicates a key. */
  lemma {:induction false} PutUnique<V>(m: Entries<V>, k: string, v: V)
    requires UniqueKeys(m)
    ensures UniqueKeys(Put(m, k, v))
  {
    if m != [] && m[0].0 != k {
      UniqueTail(m);
      PutUnique(m[1..], k, v);
      UniqueCons(m[0], Put(m[1..], k, v));
    } else if m != [] {
      var r := Put(m, k, v);
      forall i, j | 0 <= i < j < |r| ensures r[i].0 != r[j].0 {
        assert r[i].0 == m[i].0 && r[j].0 == m[j].0;
      }
    }
  }

  /** Apply the writes `w` to `m` in order: a `for` loop of `set` calls. */
  function PutAll<V>(m: Entries<V>, w: Entries<V>): Entries<V>
    decreases |w|
  {
    if w == [] then m else PutAll(Put(m, w[0].0, w[0].1), w[1..])
  }

  /** The value of the last write to `k` in `w`, an independent reading of "last write wins". */
  function LastWrite<V>(w: Entries<V>, k: string): Option<V>
  {
    if w == [] then None
    else
      var later := LastWrite(w[1..], k);
      if later.Some? then later
      else if w[0].0 == k then Some(w[0].1)
      else None
  }

  /** `delete obj[k]`. */
  function Remove<V>(m: Entries<V>, k: string): (r: Entries<V>)
    ensures KeySet(r) == KeySet(m) - {k}
    ensures forall k' :: k' != k ==> Get(r, k') == Get(m, k')
    ensures Get(r, k) == None
    ensures k !in KeySet(m) ==> r == m
  {
    if m == [] then []
    else
      KeySetCons(m[0], m[1..]);
      var rest := Remove(m[1..], k);
      if m[0].0 == k then rest
      else
        KeySetCons(m[0], rest);
        assert ([m[0]] + rest)[1..] == rest;
        [m[0]] + rest
  }

  /** After writing `w` over `m`, a key holds its last write in `w`, or else what `m` held. */
  lemma {:induction false} PutAllGet<V>(m: Entries<V>, w: Entries<V>, k: string)
    ensures Get(PutAll(m, w), k) == if LastWrite(w, k).Some? then LastWrite(w, k) else Get(m, k)
    decreases |w|
  {
    if w != [] {
      PutAllGet(Put(m, w[0].0, w[0].1), w[1..], k);
    }
  }

  /** Writing `w` adds exactly the keys of `w`. */
  lemma {:induction false} PutAllKeys<V>(m: Entries<V>, w: Entries<V>)
    ensures KeySet(PutAll(m, w)) == KeySet(m) + KeySet(w)
    decreases |w|
  {
    if w != [] {
      KeySetCons(w[0], w[1..]);
      assert [w[0]] + w[1..] == w;
      PutAllKeys(Put(m, w[0].0, w[0].1), w[1..]);
    }
  }

  /** Writing never duplicates a key. */
  lemma {:induction false} PutAllUnique<V>(m: Entries<V>, w: Entries<V>)
    requires UniqueKeys(m)
    ensures UniqueKeys(PutAll(m, w))
    decreases |w|
  {
    if w != [] {
      PutUnique(m, w[0].0, w[0].1);
      PutAllUnique(Put(m, w[0].0, w[0].1), w[1..]);
    }
  }

  /** Writing in two batches is writing their concatenation. */
  lemma {:induction false} PutAllAppend<V>(m: Entries<V>, w1: Entries<V>, w2: Entries<V>)
    ensures PutAll(m, w1 + w2) == PutAll(PutAll(m, w1), w2)
    decreases |w1|
  {
    if w1 == [] {
      assert w1 + w2 == w2;
    } else {
      assert (w1 + w2)[0] == w1[0];
      assert (w1 + w2)[1..] == w1[1..] + w2;
      PutAllAppend(Put(m, w1[0].0, w1[0].1), w1[1..], w2);
    }
  }

  /** Setting a key that is absent appends it. */
  lemma {:induction false} PutAbsent<V>(m: Entries<V>, k: string, v: V)
    requires k !in KeySet(m)
    ensures Put(m, k, v) == m + [(k, v)]
  {
    if m != [] {
      KeySetCons(m[0], m[1..]);
      PutAbsent(m[1..], k, v);
      assert [m[0]] + (m[1..] + [(k, v)]) == m + [(k, v)];
    }
  }

  /** In a duplicate-free concatenation, the first key of the second part is not in the first. */
  lemma HeadAbsent<V>(acc: Entries<V>, m: Entries<V>)
    requires UniqueKeys(acc + m) && m != []
    ensures m[0].0 !in KeySet(acc)
  {
    var am := acc + m;
    forall i | 0 <= i < |acc| ensures acc[i].0 != m[0].0 {
      assert am[i] == acc[i] && am[|acc|] == m[0];
    }
  }

  /** Copying a map entry by entry (`forEach` + `set`) onto a map reproduces it. */
  lemma {:induction false} PutAllCopies<V>(acc: Entries<V>, m: Entries<V>)
    requires UniqueKeys(acc + m)
    ensures PutAll(acc, m) == acc + m
    decreases |m|
  {
    if m == [] {
      assert acc + m == acc;
    } else {
      var next := acc + [m[0]];
      assert PutAll(acc, m) == PutAll(next, m[1..]) by {
        HeadAbsent(acc, m);
        PutAbsent(acc, m[0].0, m[0].1);
      }
      assert next + m[1..] == acc + m;
      PutAllCopies(next, m[1..]);
    }
  }

  /** For a map without duplicate keys, the last write of a key is its value. */
  lemma LastWriteOfMap<V>(m: Entries<V>, k: string)
    requires UniqueKeys(m)
    ensures LastWrite(m, k) == Get(m, k)
  {
    assert [] + m == m;
    PutAllCopies([], m);
    PutAllGet([], m, k);
  }

  /** `src.forEach((value, key) => acc.set(key, value))`, or a `for…in` copy of an object. */
  method CopyEntries<V>(acc: Entries<V>, src: Entries<V>) returns (r: Entries<V>)
    ensures r == PutAll(acc, src)
  {
    r := acc;
    var i := 0;
    while i < |src|
      invariant 0 <= i <= |src|
      invariant PutAll(r, src[i..]) == PutAll(acc, src)
    {
      assert src[i..][1..] == src[i + 1..];
      r := Put(r, src[i].0, src[i].1);
      i := i + 1;
    }
  }

  /** Removing a key that occurs once, between two runs without it, joins the runs. */
  lemma {:induction false} RemoveSingle<V>(a: Entries<V>, k: string, v: V, b: Entries<V>)
    requires k !in KeySet(a) && k !in KeySet(b)
    ensures Remove(a + [(k, v)] + b, k) == a + b
    decreases |a|
  {
    if a == [] {
      assert a + [(k, v)] + b == [(k, v)] + b;
      assert ([(k, v)] + b)[1..] == b;
    } else {
      var tail := a[1..] + [(k, v)] + b;
      assert a + [(k, v)] + b == [a[0]] + tail;
      assert ([a[0]] + tail)[1..] == tail;
      KeySetCons(a[0], a[1..]);
      assert a == [a[0]] + a[1..];
      RemoveSingle(a[1..], k, v, b);
      assert a + b == [a[0]] + (a[1..] + b);
    }
  }
}
