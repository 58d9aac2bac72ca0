/** The Go idiom `for k, v := range m { if keep(v) { out = append(out, v) } }`.
    Go visits map keys in an unspecified order; the loop below picks the next
    key with `:|`, so every visiting order is covered. */
module MapScan {

  ghost predicate Distinct<K>(s: seq<K>)
  {
    forall i, j :: 0 <= i < j < |s| ==> s[i] != s[j]
  }

  /** A duplicate-free sequence has as many elements as the set of its elements. */
  lemma {:induction false} DistinctCard<K>(s: seq<K>)
    requires Distinct(s)
    ensures |set k | k in s| == |s|
  {
    if s != [] {
      var init := s[..|s| - 1];
      DistinctCard(init);
      assert (set k | k in s) == (set k | k in init) + {s[|s| - 1]};
      assert s[|s| - 1] !in (set k | k in init);
    }
  }

  /** Keys of `m` whose value passes `keep`. */
  ghost function KeysWhere<K, V>(m: map<K, V>, keep: V -> bool): set<K>
  {
    set k | k in m && keep(m[k])
  }

  /** Keys of `m` whose value passes `keep` and equals `v`. */
  ghost function KeysWithValue<K, V>(m: map<K, V>, keep: V -> bool, v: V): set<K>
  {
    set k | k in m && keep(m[k]) && m[k] == v
  }

  /** How many keys of `m` hold the kept value `v`. */
  ghost function Count<K, V>(m: map<K, V>, keep: V -> bool, v: V): nat
  {
    |KeysWithValue(m, keep, v)|
  }

  /** A value is counted exactly when some key holds it and it passes `keep`. */
  lemma CountPositive<K, V>(m: map<K, V>, keep: V -> bool, v: V)
    ensures Count(m, keep, v) > 0 <==> v in m.Values && keep(v)
  {
    if v in m.Values && keep(v) {
      var k :| k in m && m[k] == v;
      assert k in KeysWithValue(m, keep, v);
    }
    if Count(m, keep, v) > 0 {
      var k :| k in KeysWithValue(m, keep, v);
      assert m[k] == v;
    }
  }

  /** Keys of `ks` that hold `v` in `m`. */
  ghost function KeysHolding<K, V>(m: map<K, V>, ks: seq<K>, v: V): set<K>
  {
    set k | k in ks && k in m && m[k] == v
  }

  /** A new key at the end of the list adds one holder of `v` when it holds `v`. */
  lemma HoldingSnoc<K, V>(m: map<K, V>, ks: seq<K>, last: K, v: V)
    requires last !in ks
    ensures |KeysHolding(m, ks + [last], v)|
      == |KeysHolding(m, ks, v)| + (if last in m && m[last] == v then 1 else 0)
  {
    if last in m && m[last] == v {
      assert KeysHolding(m, ks + [last], v) == KeysHolding(m, ks, v) + {last};
    } else {
      assert KeysHolding(m, ks + [last], v) == KeysHolding(m, ks, v);
    }
  }

  /** The values read at a duplicate-free list of keys hold `v` once per key holding it. */
  lemma {:induction false} CountAlongKeys<K, V>(m: map<K, V>, keys: seq<K>, vals: seq<V>, v: V)
    requires Distinct(keys) && |vals| == |keys|
    requires forall i :: 0 <= i < |keys| ==> keys[i] in m && vals[i] == m[keys[i]]
    ensures multiset(vals)[v] == |KeysHolding(m, keys, v)|
  {
    if keys != [] {
      var n := |keys| - 1;
      var init := keys[..n];
      assert keys == init + [keys[n]];
      assert vals == vals[..n] + [vals[n]];
      CountAlongKeys(m, init, vals[..n], v);
      HoldingSnoc(m, init, keys[n], v);
    }
  }

  /** Values collected at every kept key, each key once, hold every value
      exactly as often as the kept keys of `m` do. */
  lemma CollectedCounts<K, V>(m: map<K, V>, keep: V -> bool, keys: seq<K>, vals: seq<V>)
    requires Distinct(keys) && |vals| == |keys|
    requires forall i :: 0 <= i < |keys| ==> keys[i] in m && vals[i] == m[keys[i]] && keep(vals[i])
    requires forall k :: k in m && keep(m[k]) ==> k in keys
    ensures forall v :: multiset(vals)[v] == Count(m, keep, v)
  {
    forall v ensures multiset(vals)[v] == Count(m, keep, v) {
      CountAlongKeys(m, keys, vals, v);
      forall k | k in keys && m[k] == v ensures k in KeysWithValue(m, keep, v) {
        var i :| 0 <= i < |keys| && keys[i] == k;
      }
      assert KeysHolding(m, keys, v) == KeysWithValue(m, keep, v);
    }
  }

  method CollectWhere<K, V(==)>(m: map<K, V>, keep: V -> bool) returns (keys: seq<K>, vals: seq<V>)
    ensures |vals| == |keys| == |KeysWhere(m, keep)|
    ensures Distinct(keys)
    ensures forall i :: 0 <= i < |keys| ==> keys[i] in m && vals[i] == m[keys[i]] && keep(vals[i])
    ensures forall k :: k in m && keep(m[k]) ==> k in keys
    ensures forall v :: v in vals <==> v in m.Values && keep(v)
    ensures forall v :: multiset(vals)[v] == Count(m, keep, v)
  {
    var remaining := m.Keys;
    keys, vals := [], [];
    while remaining != {}
      invariant remaining <= m.Keys
      invariant |vals| == |keys| && Distinct(keys)
      invariant forall i :: 0 <= i < |keys| ==> keys[i] in m && keys[i] !in remaining && vals[i] == m[keys[i]] && keep(vals[i])
      invariant forall k :: k in m && k !in remaining && keep(m[k]) ==> k in keys
      decreases remaining
    {
      var k :| k in remaining;
      if keep(m[k]) {
        keys, vals := keys + [k], vals + [m[k]];
      }
      remaining := remaining - {k};
    }
    DistinctCard(keys);
    CollectedCounts(m, keep, keys, vals);
    assert (set k | k in keys) == KeysWhere(m, keep);
    forall v | v in m.Values && keep(v) ensures v in vals {
      var k :| k in m && m[k] == v;
      var i :| 0 <= i < |keys| && keys[i] == k;
      assert vals[i] == v;
    }
  }

  /** The keys-only form, `for k, v := range m { if keep(v) { ids = append(ids, k) } }`. */
  method CollectKeysWhere<K, V>(m: map<K, V>, keep: V -> bool) returns (keys: seq<K>)
    ensures Distinct(keys)
    ensures forall i :: 0 <= i < |keys| ==> keys[i] in m && keep(m[keys[i]])
    ensures forall k :: k in m && keep(m[k]) ==> k in keys
  {
    var remaining := m.Keys;
    keys := [];
    while remaining != {}
      invariant remaining <= m.Keys
      invariant Distinct(keys)
      invariant forall i :: 0 <= i < |keys| ==> keys[i] in m && keys[i] !in remaining && keep(m[keys[i]])
      invariant forall k :: k in m && k !in remaining && keep(m[k]) ==> k in keys
      decreases remaining
    {
      var k :| k in remaining;
      if keep(m[k]) {
        keys := keys + [k];
      }
      remaining := remaining - {k};
    }
  }

  /** A subset is no larger than its superset. */
  lemma SubsetCard<K>(a: set<K>, b: set<K>)
    requires a <= b
    ensures |a| <= |b|
  {
    assert b == a + (b - a);
  }

  /** `m` with the keys of `ks` deleted one after the other. */
  ghost function RemoveAll<K, V>(m: map<K, V>, ks: seq<K>): map<K, V>
  {
    if |ks| == 0 then m else RemoveAll(m, ks[..|ks| - 1]) - {ks[|ks| - 1]}
  }

  /** Deleting a list of keys keeps exactly the other keys, with their values. */
  lemma {:induction false} RemoveAllSpec<K, V>(m: map<K, V>, ks: seq<K>)
    ensures forall k :: k in RemoveAll(m, ks) <==> k in m && k !in ks
    ensures forall k :: k in RemoveAll(m, ks) ==> RemoveAll(m, ks)[k] == m[k]
  {
    if |ks| > 0 {
      var init := ks[..|ks| - 1];
      RemoveAllSpec(m, init);
      assert ks == init + [ks[|ks| - 1]];
    }
  }
}
