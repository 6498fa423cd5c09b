/** Python's built-in dict, as much of it as the landmark tables use: a dict
  * literal, `list(d.keys())`, `d[k]` and the inverse comprehension
  * `{v: k for k, v in d.items()}`.
  *
  * A dict is modelled as the list of its items in insertion order, each key
  * once. Storing an existing key replaces its value in place (the key keeps
  * its first position); storing a new key appends it. */
module PyDict {

  predicate Distinct<T(==)>(s: seq<T>)
  {
    forall i, j :: 0 <= i < j < |s| ==> s[i] != s[j]
  }

  /** `list(d.keys())` */
  function Keys<K, V>(d: seq<(K, V)>): seq<K>
  {
    seq(|d|, i requires 0 <= i < |d| => d[i].0)
  }

  /** The keys of `a` from position n on are those of `b` when the items
    * agree key by key. */
  lemma KeysFrom<K, V, W>(a: seq<(K, V)>, b: seq<(K, W)>, n: nat)
    requires n <= |a| && |a| - n == |b|
    requires forall i :: 0 <= i < |b| ==> a[n + i].0 == b[i].0
    ensures Keys(a)[n..] == Keys(b)
  {
    forall i | 0 <= i < |b| ensures Keys(a)[n..][i] == Keys(b)[i] {
      assert a[n + i].0 == b[i].0;
    }
  }

  /** `list(d.values())` */
  function Values<K, V>(d: seq<(K, V)>): seq<V>
  {
    seq(|d|, i requires 0 <= i < |d| => d[i].1)
  }

  /** The pairs of `d.items()` with key and value exchanged. */
  function Swapped<K, V>(d: seq<(K, V)>): seq<(V, K)>
  {
    seq(|d|, i requires 0 <= i < |d| => (d[i].1, d[i].0))
  }

  /** An item list that is the state of some dict: no key twice. */
  predicate IsDict<K(==), V>(d: seq<(K, V)>)
  {
    Distinct(Keys(d))
  }

  /** `d[k] = v` */
  function Store<K(==), V>(d: seq<(K, V)>, k: K, v: V): (r: seq<(K, V)>)
    requires IsDict(d)
    ensures IsDict(r)
    ensures k in Keys(d) ==>
      |r| == |d| && forall i :: 0 <= i < |d| ==> r[i] == (if d[i].0 == k then (k, v) else d[i])
    ensures k !in Keys(d) ==> r == d + [(k, v)]
  {
    if |d| == 0 then [(k, v)]
    else
      KeysOfTail(d);
      if d[0].0 == k then
        var r := [(k, v)] + d[1..];
        assert Keys(r) == Keys(d);
        assert forall i :: 0 < i < |d| ==> d[i].0 != k by {
          forall i | 0 < i < |d| ensures d[i].0 != k {
            assert Keys(d)[0] != Keys(d)[i];
          }
        }
        r
      else
        var rest := Store(d[1..], k, v);
        var r := [d[0]] + rest;
        assert Keys(r) == [d[0].0] + Keys(rest);
        assert d[0].0 !in Keys(rest) by {
          forall i | 0 <= i < |rest| ensures Keys(rest)[i] != d[0].0 {
            if i < |d| - 1 {
              assert Keys(d)[0] != Keys(d)[i + 1];
            }
          }
        }
        r
  }

  lemma KeysOfTail<K, V>(d: seq<(K, V)>)
    requires IsDict(d) && |d| > 0
    ensures Keys(d) == [d[0].0] + Keys(d[1..])
    ensures IsDict(d[1..])
    ensures d[0].0 !in Keys(d[1..])
  {
    assert Keys(d) == [d[0].0] + Keys(d[1..]);
    forall i | 0 <= i < |d| - 1 ensures Keys(d[1..])[i] != d[0].0 {
      assert Keys(d)[0] != Keys(d)[i + 1];
    }
    forall i, j | 0 <= i < j < |d| - 1 ensures Keys(d[1..])[i] != Keys(d[1..])[j] {
      assert Keys(d)[i + 1] != Keys(d)[j + 1];
    }
  }

  lemma StoreKeys<K(!new), V>(d: seq<(K, V)>, k: K, v: V)
    requires IsDict(d)
    ensures forall k' :: k' in Keys(Store(d, k, v)) <==> k' in Keys(d) || k' == k
  {
    var r := Store(d, k, v);
    if k in Keys(d) {
      assert Keys(r) == Keys(d);
    } else {
      assert Keys(r) == Keys(d) + [k];
    }
  }

  /** The dict that a literal `{k0: v0, k1: v1, ...}`, or a comprehension
    * producing these pairs in this order, evaluates to: the pairs are stored
    * one after the other, from left to right. */
  function FromItems<K(==, !new), V>(items: seq<(K, V)>): (d: seq<(K, V)>)
    ensures IsDict(d)
  {
    if |items| == 0 then []
    else Store(FromItems(items[..|items| - 1]), items[|items| - 1].0, items[|items| - 1].1)
  }

  /** A literal's dict has exactly the keys written in it. */
  lemma {:induction false} FromItemsKeys<K(!new), V>(items: seq<(K, V)>)
    ensures forall k :: k in Keys(FromItems(items)) <==> k in Keys(items)
  {
    if |items| > 0 {
      var prefix := items[..|items| - 1];
      var last := items[|items| - 1];
      FromItemsKeys(prefix);
      StoreKeys(FromItems(prefix), last.0, last.1);
      assert Keys(items) == Keys(prefix) + [last.0];
    }
  }

  /** The mapping a dict denotes: `d[k]` is `ToMap(d)[k]`, and `k in d` is
    * `k in ToMap(d)`. */
  function ToMap<K(==, !new), V>(d: seq<(K, V)>): (m: map<K, V>)
    requires IsDict(d)
    ensures forall k :: k in m <==> k in Keys(d)
    ensures forall i :: 0 <= i < |d| ==> d[i].0 in m && m[d[i].0] == d[i].1
  {
    if |d| == 0 then map[]
    else
      KeysOfTail(d);
      var m := ToMap(d[1..])[d[0].0 := d[0].1];
      assert forall i :: 0 < i < |d| ==> d[i] == d[1..][i - 1];
      m
  }

  /** The inverse dict `{v: k for k, v in d.items()}`. */
  function Inverted<K(==, !new), V(==, !new)>(d: seq<(K, V)>): (r: seq<(V, K)>)
    ensures IsDict(r)
  {
    FromItems(Swapped(d))
  }

  /** Storing a pair updates the denoted mapping at its key. */
  lemma StoreToMap<K(!new), V>(d: seq<(K, V)>, k: K, v: V)
    requires IsDict(d)
    ensures ToMap(Store(d, k, v)) == ToMap(d)[k := v]
  {
    if k in Keys(d) {
      StoreToMapExisting(d, k, v);
    } else {
      StoreToMapFresh(d, k, v);
    }
  }

  lemma StoreToMapExisting<K(!new), V>(d: seq<(K, V)>, k: K, v: V)
    requires IsDict(d) && k in Keys(d)
    ensures ToMap(Store(d, k, v)) == ToMap(d)[k := v]
  {
    var r := Store(d, k, v);
    StoreExistingKeys(d, k, v);
    forall k' | k' in ToMap(r) ensures k' in ToMap(d)[k := v] && ToMap(r)[k'] == ToMap(d)[k := v][k'] {
      StoreExistingAt(d, k, v, k');
    }
  }

  lemma StoreExistingKeys<K(!new), V>(d: seq<(K, V)>, k: K, v: V)
    requires IsDict(d) && k in Keys(d)
    ensures Keys(Store(d, k, v)) == Keys(d)
  {
    var r := Store(d, k, v);
    forall i | 0 <= i < |d| ensures Keys(r)[i] == Keys(d)[i] {
      assert r[i] == (if d[i].0 == k then (k, v) else d[i]);
    }
  }

  lemma StoreExistingAt<K(!new), V>(d: seq<(K, V)>, k: K, v: V, k': K)
    requires IsDict(d) && k in Keys(d) && k' in Keys(d)
    ensures k' in ToMap(Store(d, k, v)) && k' in ToMap(d)
    ensures ToMap(Store(d, k, v))[k'] == if k' == k then v else ToMap(d)[k']
  {
    var r := Store(d, k, v);
    StoreExistingKeys(d, k, v);
    var i :| 0 <= i < |d| && Keys(d)[i] == k';
    assert d[i].0 == k';
    assert r[i] == (if d[i].0 == k then (k, v) else d[i]);
  }

  lemma StoreToMapFresh<K(!new), V>(d: seq<(K, V)>, k: K, v: V)
    requires IsDict(d) && k !in Keys(d)
    ensures ToMap(Store(d, k, v)) == ToMap(d)[k := v]
  {
    var r := Store(d, k, v);
    assert Keys(r) == Keys(d) + [k];
    forall k' | k' in ToMap(r) ensures k' in ToMap(d)[k := v] && ToMap(r)[k'] == ToMap(d)[k := v][k'] {
      StoreFreshAt(d, k, v, k');
    }
  }

  lemma StoreFreshAt<K(!new), V>(d: seq<(K, V)>, k: K, v: V, k': K)
    requires IsDict(d) && k !in Keys(d) && k' in Keys(d) + [k]
    ensures k' in ToMap(Store(d, k, v))
    ensures k' != k ==> k' in ToMap(d)
    ensures ToMap(Store(d, k, v))[k'] == if k' == k then v else ToMap(d)[k']
  {
    var r := Store(d, k, v);
    assert r == d + [(k, v)];
    if k' == k {
      assert r[|d|] == (k, v);
    } else {
      var i :| 0 <= i < |d| && Keys(d)[i] == k';
      assert r[i] == d[i];
      assert d[i].0 == k';
    }
  }

  /** A literal that repeats a key keeps the value written last: for every
    * item that no later item overrides, its key maps to its value. */
  lemma {:induction false} LastItemWins<K(!new), V>(items: seq<(K, V)>, i: nat)
    requires i < |items|
    requires forall j :: i < j < |items| ==> items[j].0 != items[i].0
    ensures items[i].0 in ToMap(FromItems(items)) && ToMap(FromItems(items))[items[i].0] == items[i].1
  {
    var n := |items|;
    var prefix := items[..n - 1];
    ToMapStep(items);
    if i < n - 1 {
      assert prefix[i] == items[i];
      LastItemWins(prefix, i);
    }
  }

  /** Evaluating one more item updates the denoted mapping at its key. */
  lemma ToMapStep<K(!new), V>(items: seq<(K, V)>)
    requires |items| > 0
    ensures ToMap(FromItems(items)) ==
      ToMap(FromItems(items[..|items| - 1]))[items[|items| - 1].0 := items[|items| - 1].1]
  {
    FromItemsStep(items);
    StoreToMap(FromItems(items[..|items| - 1]), items[|items| - 1].0, items[|items| - 1].1);
  }

  /** The last item is stored into the dict the others evaluate to. */
  lemma FromItemsStep<K(!new), V>(items: seq<(K, V)>)
    requires |items| > 0
    ensures IsDict(FromItems(items[..|items| - 1]))
    ensures FromItems(items) ==
      Store(FromItems(items[..|items| - 1]), items[|items| - 1].0, items[|items| - 1].1)
  {
  }

  /** Storing pairs whose keys are all new appends them, in order. */
  lemma {:induction false} FromItemsAppendFresh<K(!new), V>(a: seq<(K, V)>, b: seq<(K, V)>)
    requires Distinct(Keys(b))
    requires forall k :: k in Keys(b) ==> k !in Keys(a)
    ensures FromItems(a + b) == FromItems(a) + b
  {
    if |b| == 0 {
      assert a + b == a;
    } else {
      var b' := b[..|b| - 1];
      var last := b[|b| - 1];
      assert b == b' + [last];
      assert (a + b)[..|a + b| - 1] == a + b' && (a + b)[|a + b| - 1] == last;
      DropLastKey(b);
      FromItemsAppendFresh(a, b');
      LastKeyFresh(a, b);
      FromItemsAppendOne(a + b, FromItems(a) + b');
    }
  }

  /** An item with a new key is appended. */
  lemma FromItemsAppendOne<K(!new), V>(items: seq<(K, V)>, d: seq<(K, V)>)
    requires |items| > 0 && FromItems(items[..|items| - 1]) == d
    requires items[|items| - 1].0 !in Keys(d)
    ensures FromItems(items) == d + [items[|items| - 1]]
  {
  }

  /** The last key of b is new to a followed by the rest of b. */
  lemma LastKeyFresh<K(!new), V>(a: seq<(K, V)>, b: seq<(K, V)>)
    requires Distinct(Keys(b)) && |b| > 0
    requires forall k :: k in Keys(b) ==> k !in Keys(a)
    ensures b[|b| - 1].0 !in Keys(FromItems(a) + b[..|b| - 1])
  {
    DropLastKey(b);
    FromItemsKeys(a);
    KeysConcat(FromItems(a), b[..|b| - 1]);
    assert Keys(b)[|b| - 1] == b[|b| - 1].0;
  }

  lemma DropLastKey<K, V>(b: seq<(K, V)>)
    requires Distinct(Keys(b)) && |b| > 0
    ensures Keys(b) == Keys(b[..|b| - 1]) + [b[|b| - 1].0]
    ensures Distinct(Keys(b[..|b| - 1]))
    ensures b[|b| - 1].0 !in Keys(b[..|b| - 1])
  {
    var b' := b[..|b| - 1];
    assert Keys(b) == Keys(b') + [b[|b| - 1].0];
    forall i, j | 0 <= i < j < |b'| ensures Keys(b')[i] != Keys(b')[j] {
      assert Keys(b')[i] == Keys(b)[i] && Keys(b')[j] == Keys(b)[j];
    }
    forall i | 0 <= i < |b'| ensures Keys(b')[i] != b[|b| - 1].0 {
      assert Keys(b')[i] == Keys(b)[i];
      assert b[|b| - 1].0 == Keys(b)[|b| - 1];
    }
  }

  /** A literal whose keys are all distinct evaluates to exactly its own
    * items, in the order written. */
  lemma FromItemsOfDistinct<K(!new), V>(items: seq<(K, V)>)
    requires Distinct(Keys(items))
    ensures FromItems(items) == items
  {
    FromItemsAppendFresh([], items);
    assert [] + items == items;
  }

  /** A literal that repeats a key: the key keeps the position of its first
    * occurrence and takes the value of the later one. */
  lemma FromItemsRepeatedKey<K(!new), V>(a: seq<(K, V)>, p: nat, v: V, b: seq<(K, V)>)
    requires Distinct(Keys(a)) && p < |a|
    requires Distinct(Keys(b))
    requires forall k :: k in Keys(b) ==> k !in Keys(a)
    ensures FromItems(a + [(a[p].0, v)] + b) == a[p := (a[p].0, v)] + b
  {
    var k := a[p].0;
    FromItemsReplace(a, p, v);
    KeysConcat(a, [(k, v)]);
    assert Keys([(k, v)]) == [k];
    assert Keys(a)[p] == k;
    FromItemsAppendFresh(a + [(k, v)], b);
  }

  /** Storing an existing key once more replaces its value in place. */
  lemma FromItemsReplace<K(!new), V>(a: seq<(K, V)>, p: nat, v: V)
    requires Distinct(Keys(a)) && p < |a|
    ensures FromItems(a + [(a[p].0, v)]) == a[p := (a[p].0, v)]
  {
    var k := a[p].0;
    var items := a + [(k, v)];
    assert Keys(a)[p] == k;
    assert items[..|items| - 1] == a;
    FromItemsOfDistinct(a);
    FromItemsStep(items);
    var d := Store(a, k, v);
    var e := a[p := (k, v)];
    assert |d| == |e|;
    forall i | 0 <= i < |a| ensures d[i] == e[i] {
      if i != p {
        assert Keys(a)[i] != Keys(a)[p];
      }
    }
    assert d == e;
  }

  /** Inverting a dict whose values are distinct gives its exact inverse:
    * every value maps back to its key, and nothing else is a key. */
  lemma InvertedExact<K(!new), V(!new)>(d: seq<(K, V)>)
    requires IsDict(d)
    requires Distinct(Values(d))
    ensures Inverted(d) == Swapped(d)
    ensures forall i :: 0 <= i < |d| ==> d[i].1 in ToMap(Inverted(d)) && ToMap(Inverted(d))[d[i].1] == d[i].0
    ensures forall v :: v in ToMap(Inverted(d)) <==> v in Values(d)
  {
    var s := Swapped(d);
    assert Keys(s) == Values(d);
    FromItemsOfDistinct(s);
    var m := ToMap(s);
    forall i | 0 <= i < |d| ensures d[i].1 in m && m[d[i].1] == d[i].0 {
      assert s[i] == (d[i].1, d[i].0);
    }
  }

  /** A value that no item has is the value of no key, and the inverse dict
    * has no entry for it. */
  lemma ValueAbsent<K(!new), V(!new)>(d: seq<(K, V)>, v: V)
    requires IsDict(d)
    requires forall i :: 0 <= i < |d| ==> d[i].1 != v
    ensures forall k :: k in ToMap(d) ==> ToMap(d)[k] != v
    ensures v !in ToMap(Inverted(d))
  {
    ValueOfNoKey(d, v);
    NoInverseEntry(d, v);
  }

  lemma ValueOfNoKey<K(!new), V(!new)>(d: seq<(K, V)>, v: V)
    requires IsDict(d)
    requires forall i :: 0 <= i < |d| ==> d[i].1 != v
    ensures forall k :: k in ToMap(d) ==> ToMap(d)[k] != v
  {
    var m := ToMap(d);
    forall k | k in m ensures m[k] != v {
      var i :| 0 <= i < |d| && Keys(d)[i] == k;
      assert d[i].0 == k;
    }
  }

  lemma NoInverseEntry<K(!new), V(!new)>(d: seq<(K, V)>, v: V)
    requires forall i :: 0 <= i < |d| ==> d[i].1 != v
    ensures v !in ToMap(Inverted(d))
  {
    var s := Swapped(d);
    FromItemsKeys(s);
    assert v !in Keys(s) by {
      forall i | 0 <= i < |s| ensures Keys(s)[i] != v {
        assert Keys(s)[i] == d[i].1;
      }
    }
  }

  /** The inverse dict sends a value to the key of the last item that has
    * it. */
  lemma InverseLastWins<K(!new), V(!new)>(d: seq<(K, V)>, i: nat)
    requires i < |d|
    requires forall j :: i < j < |d| ==> d[j].1 != d[i].1
    ensures d[i].1 in ToMap(Inverted(d)) && ToMap(Inverted(d))[d[i].1] == d[i].0
  {
    LastItemWins(Swapped(d), i);
  }

  lemma KeysConcat<K, V>(a: seq<(K, V)>, b: seq<(K, V)>)
    ensures Keys(a + b) == Keys(a) + Keys(b)
  {
  }

  lemma DistinctConcat<T>(a: seq<T>, b: seq<T>)
    requires Distinct(a) && Distinct(b)
    requires forall x :: x in a ==> x !in b
    ensures Distinct(a + b)
  {
    forall i, j | 0 <= i < j < |a + b| ensures (a + b)[i] != (a + b)[j] {
      if j < |a| {
        assert (a + b)[i] == a[i] && (a + b)[j] == a[j];
      } else if i >= |a| {
        assert (a + b)[i] == b[i - |a|] && (a + b)[j] == b[j - |a|];
      } else {
        assert (a + b)[i] == a[i] && (a + b)[j] == b[j - |a|];
        assert a[i] in a && b[j - |a|] in b;
      }
    }
  }
}
