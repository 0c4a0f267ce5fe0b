/**
 A plain JavaScript object used as a dictionary: its own keys in enumeration order, each with a
 value. Only the order of `Object.keys` matters to the source, so nothing here fixes it beyond
 "a new key comes last and an overwritten key keeps its place".
 */
module Objects {
  import opened Wrappers

  datatype Object<K(==, !new), V> = Object(keys: seq<K>, vals: map<K, V>) {
    ghost predicate Valid() {
      && (forall k :: k in keys <==> k in vals)
      && (forall i, j :: 0 <= i < j < |keys| ==> keys[i] != keys[j])
    }

    function Get(k: K): Option<V> {
      if k in vals then Some(vals[k]) else None
    }

    function Put(k: K, v: V): Object<K, V> {
      Object(if k in vals then keys else keys + [k], vals[k := v])
    }

    lemma PutKeepsValid(k: K, v: V)
      requires Valid()
      ensures Put(k, v).Valid()
    {
    }
  }

  function Empty<K(==, !new), V>(): Object<K, V> {
    Object([], map[])
  }

  /** `keys.map(k => vals[k]).flat()`. */
  function Flat<K(==), T>(keys: seq<K>, vals: map<K, seq<T>>): seq<T> {
    if keys == [] then []
    else
      var last := keys[|keys| - 1];
      Flat(keys[..|keys| - 1], vals) + if last in vals then vals[last] else []
  }

  lemma {:induction false} FlatMember<K, T>(keys: seq<K>, vals: map<K, seq<T>>, x: T)
    ensures x in Flat(keys, vals) <==> exists k :: k in keys && k in vals && x in vals[k]
  {
    if keys != [] {
      var last := keys[|keys| - 1];
      FlatMember(keys[..|keys| - 1], vals, x);
      assert forall k :: k in keys <==> k in keys[..|keys| - 1] || k == last;
    }
  }

  /** Values at other keys do not matter. */
  lemma {:induction false} FlatFrame<K, T>(keys: seq<K>, vals: map<K, seq<T>>, k: K, v: seq<T>)
    requires k !in keys
    ensures Flat(keys, vals[k := v]) == Flat(keys, vals)
  {
    if keys != [] {
      FlatFrame(keys[..|keys| - 1], vals, k, v);
    }
  }

  /** Overwriting one key exchanges exactly that key's items. */
  lemma {:induction false} FlatUpdate<K, T>(keys: seq<K>, vals: map<K, seq<T>>, k: K, v: seq<T>)
    requires forall i, j :: 0 <= i < j < |keys| ==> keys[i] != keys[j]
    requires k in keys && k in vals
    ensures multiset(Flat(keys, vals[k := v])) + multiset(vals[k]) == multiset(Flat(keys, vals)) + multiset(v)
  {
    var front, last := keys[..|keys| - 1], keys[|keys| - 1];
    if last == k {
      FlatFrame(front, vals, k, v);
    } else {
      assert keys == front + [last];
      FlatUpdate(front, vals, k, v);
      var item := if last in vals then vals[last] else [];
      var old', new' := multiset(Flat(front, vals)), multiset(Flat(front, vals[k := v]));
      calc {
        multiset(Flat(keys, vals[k := v])) + multiset(vals[k]);
        new' + multiset(item) + multiset(vals[k]);
        (new' + multiset(vals[k])) + multiset(item);
        (old' + multiset(v)) + multiset(item);
        old' + multiset(item) + multiset(v);
      }
    }
  }

  /** `Object.values(o).flat()`. */
  function FlatValues<K(==, !new), T>(o: Object<K, seq<T>>): seq<T> {
    Flat(o.keys, o.vals)
  }

  lemma FlatValuesPut<K(!new), T>(o: Object<K, seq<T>>, k: K, v: seq<T>)
    requires o.Valid()
    ensures multiset(FlatValues(o.Put(k, v))) + multiset(o.Get(k).GetOr([])) == multiset(FlatValues(o)) + multiset(v)
  {
    if k in o.vals {
      FlatUpdate(o.keys, o.vals, k, v);
    } else {
      FlatFrame(o.keys, o.vals, k, v);
      assert (o.keys + [k])[..|o.keys|] == o.keys;
      assert FlatValues(o.Put(k, v)) == FlatValues(o) + v;
    }
  }

  lemma {:induction false} FlatOrigin<K, T>(keys: seq<K>, vals: map<K, seq<T>>, x: T) returns (k: K)
    requires x in Flat(keys, vals)
    ensures k in keys && k in vals && x in vals[k]
  {
    k := keys[|keys| - 1];
    if k !in vals || x !in vals[k] {
      k := FlatOrigin(keys[..|keys| - 1], vals, x);
    }
  }

  /** A multiset of one item more. */
  lemma OneMore<T>(a: seq<T>, b: seq<T>, old': seq<T>, x: T)
    requires multiset(b) + multiset(old') == multiset(a) + multiset(old' + [x])
    ensures multiset(b) == multiset(a) + multiset{x}
  {
    assert multiset(old' + [x]) == multiset(old') + multiset{x};
    var l, r := multiset(b), multiset(a) + multiset{x};
    forall y ensures l[y] == r[y] {
      assert (multiset(b) + multiset(old'))[y] == (multiset(a) + multiset(old' + [x]))[y];
    }
  }
}
