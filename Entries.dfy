/**
 * Python dictionaries keep insertion order, and several handlers pick "the first" entry of one.
 * A dictionary is modelled as a sequence of (key, value) pairs with distinct keys.
 */
module Entries {
  import opened Wrappers
  import opened SeqUtil

  type Table<K, V> = seq<(K, V)>

  function Keys<K(==), V(==)>(t: Table<K, V>): (r: seq<K>)
    ensures |r| == |t| && forall i :: 0 <= i < |t| ==> r[i] == t[i].0
  {
    if t == [] then [] else [t[0].0] + Keys(t[1..])
  }

  predicate DistinctKeys<K(==), V(==)>(t: Table<K, V>)
  {
    forall i, j :: 0 <= i < j < |t| ==> t[i].0 != t[j].0
  }

  predicate HasKey<K(==), V(==)>(t: Table<K, V>, k: K)
  {
    k in Keys(t)
  }

  /** `d.get(k)`. */
  function Get<K(==), V(==)>(t: Table<K, V>, k: K): (r: Option<V>)
    ensures r.Some? <==> HasKey(t, k)
    ensures r.Some? ==> (k, r.value) in t
  {
    if t == [] then None
    else if t[0].0 == k then Some(t[0].1)
    else
      assert Keys(t) == [t[0].0] + Keys(t[1..]);
      Get(t[1..], k)
  }

  /** `d[k] = v`: an existing key keeps its position, a new key goes last. */
  function Put<K(==), V(==)>(t: Table<K, V>, k: K, v: V): (r: Table<K, V>)
    ensures HasKey(t, k) ==> Keys(r) == Keys(t)
    ensures !HasKey(t, k) ==> Keys(r) == Keys(t) + [k]
  {
    if t == [] then [(k, v)]
    else if t[0].0 == k then [(k, v)] + t[1..]
    else
      assert Keys(t) == [t[0].0] + Keys(t[1..]);
      var rest := Put(t[1..], k, v);
      assert Keys([t[0]] + rest) == [t[0].0] + Keys(rest);
      [t[0]] + rest
  }

  /** `d.pop(k, None)` without its result: every entry with key `k` goes, the others keep their order. */
  function Remove<K(==), V(==)>(t: Table<K, V>, k: K): (r: Table<K, V>)
    ensures !HasKey(r, k)
    ensures forall i :: 0 <= i < |r| ==> r[i] in t && r[i].0 != k
    ensures forall i :: 0 <= i < |t| && t[i].0 != k ==> t[i] in r
    ensures |r| <= |t|
  {
    if t == [] then []
    else
      var rest := Remove(t[1..], k);
      assert forall i :: 1 <= i < |t| ==> t[i] == t[1..][i - 1];
      if t[0].0 == k then rest
      else
        assert Keys([t[0]] + rest) == [t[0].0] + Keys(rest);
        [t[0]] + rest
  }

  /** Appending an entry appends its key. */
  lemma KeysSnoc<K, V>(t: Table<K, V>, k: K, v: V)
    ensures Keys(t + [(k, v)]) == Keys(t) + [k]
  {
  }

  lemma {:induction false} GetPut<K, V>(t: Table<K, V>, k: K, v: V, q: K)
    ensures Get(Put(t, k, v), q) == if q == k then Some(v) else Get(t, q)
  {
    if t != [] && t[0].0 != k { GetPut(t[1..], k, v, q); }
  }

  lemma {:induction false} PutDistinct<K, V>(t: Table<K, V>, k: K, v: V)
    requires DistinctKeys(t)
    ensures DistinctKeys(Put(t, k, v))
  {
    var r := Put(t, k, v);
    assert forall i :: 0 <= i < |r| ==> r[i].0 == Keys(r)[i];
    assert forall i :: 0 <= i < |t| ==> t[i].0 == Keys(t)[i];
  }

  lemma {:induction false} GetRemove<K, V>(t: Table<K, V>, k: K, q: K)
    ensures Get(Remove(t, k), q) == if q == k then None else Get(t, q)
  {
    if t != [] {
      GetRemove(t[1..], k, q);
    }
  }

  lemma {:induction false} RemoveDistinct<K, V>(t: Table<K, V>, k: K)
    requires DistinctKeys(t)
    ensures DistinctKeys(Remove(t, k))
  {
    if t != [] {
      RemoveDistinct(t[1..], k);
      var rest := Remove(t[1..], k);
      if t[0].0 != k {
        forall j | 0 <= j < |rest| ensures rest[j].0 != t[0].0 {
          assert rest[j] in t[1..];
          var m :| 0 <= m < |t[1..]| && t[1..][m] == rest[j];
          assert t[m + 1] == rest[j];
        }
      }
    }
  }

  lemma {:induction false} RemoveAbsent<K, V>(t: Table<K, V>, k: K)
    requires !HasKey(t, k)
    ensures Remove(t, k) == t
  {
    if t != [] {
      assert Keys(t) == [t[0].0] + Keys(t[1..]);
      RemoveAbsent(t[1..], k);
    }
  }

  /** Putting a fresh key appends it. */
  lemma {:induction false} PutFresh<K, V>(t: Table<K, V>, k: K, v: V)
    requires !HasKey(t, k)
    ensures Put(t, k, v) == t + [(k, v)]
  {
    if t != [] {
      assert Keys(t) == [t[0].0] + Keys(t[1..]);
      PutFresh(t[1..], k, v);
      assert [t[0]] + (t[1..] + [(k, v)]) == t + [(k, v)];
    }
  }

  /** Registering a fresh key and removing it again gives back the original table. */
  lemma {:induction false} RemovePutFresh<K, V>(t: Table<K, V>, k: K, v: V)
    requires !HasKey(t, k)
    ensures Remove(Put(t, k, v), k) == t
  {
    if t != [] {
      assert Keys(t) == [t[0].0] + Keys(t[1..]);
      RemovePutFresh(t[1..], k, v);
      assert Put(t, k, v) == [t[0]] + Put(t[1..], k, v);
      assert Put(t, k, v)[1..] == Put(t[1..], k, v);
    }
  }

  /** In a table with distinct keys, the key at `i` finds the value at `i`. */
  lemma {:induction false} GetAt<K, V>(t: Table<K, V>, i: nat)
    requires DistinctKeys(t) && i < |t|
    ensures Get(t, t[i].0) == Some(t[i].1)
  {
    if i > 0 {
      assert t[0].0 != t[i].0;
      assert t[1..][i - 1] == t[i];
      GetAt(t[1..], i - 1);
    }
  }

  /** Looking up in a table with one more entry at the end. */
  lemma {:induction false} GetSnoc<K, V>(t: Table<K, V>, k: K, v: V, q: K)
    ensures Get(t + [(k, v)], q) == if HasKey(t, q) then Get(t, q) else if q == k then Some(v) else None
  {
    if t != [] {
      assert (t + [(k, v)])[1..] == t[1..] + [(k, v)];
      assert Keys(t) == [t[0].0] + Keys(t[1..]);
      GetSnoc(t[1..], k, v, q);
    }
  }

  /** Assigning to a key that is present, in a table with distinct keys, replaces its value where it stands. */
  lemma {:induction false} PutAt<K, V>(t: Table<K, V>, i: nat, v: V)
    requires DistinctKeys(t) && i < |t|
    ensures Put(t, t[i].0, v) == t[i := (t[i].0, v)]
  {
    if i > 0 {
      assert t[0].0 != t[i].0;
      assert t[1..][i - 1] == t[i];
      PutAt(t[1..], i - 1, v);
      assert Put(t, t[i].0, v) == [t[0]] + Put(t[1..], t[i].0, v);
    }
  }

  /** The condition "the entry's key is not `k`", as a value. */
  function KeyIsNot<K(==), V>(k: K): ((K, V)) -> bool
  {
    (e: (K, V)) => e.0 != k
  }

  /** Removing a key is filtering out the entries with that key. */
  lemma {:induction false} RemoveIsFilter<K, V>(t: Table<K, V>, k: K)
    ensures Remove(t, k) == Filter(t, KeyIsNot(k))
  {
    var p := KeyIsNot(k);
    if t != [] {
      RemoveIsFilter(t[1..], k);
      assert t == [t[0]] + t[1..];
      FilterAppend([t[0]], t[1..], p);
      assert [t[0]][..0] == [];
      assert Filter([t[0]], p) == if p(t[0]) then [t[0]] else [];
      if t[0].0 == k {
        assert Remove(t, k) == Remove(t[1..], k);
      } else {
        assert Remove(t, k) == [t[0]] + Remove(t[1..], k);
      }
    }
  }
}
