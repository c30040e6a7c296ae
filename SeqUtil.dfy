/** Sequence helpers: first/last flag, counting, prefixes, and pandas' `drop_duplicates(keep='first')`. */
module SeqUtil {
  import opened Wrappers

  /** Index of the first true flag. */
  function FirstTrue(s: seq<bool>): (r: Option<nat>)
    ensures r.Some? ==> r.value < |s| && s[r.value] && forall j :: 0 <= j < r.value ==> !s[j]
    ensures r.None? ==> forall j :: 0 <= j < |s| ==> !s[j]
  {
    if s == [] then None
    else match FirstTrue(s[..|s| - 1])
      case Some(k) => Some(k)
      case None => if s[|s| - 1] then Some(|s| - 1) else None
  }

  /** Index of the last true flag. */
  function LastTrue(s: seq<bool>): (r: Option<nat>)
    ensures r.Some? ==> r.value < |s| && s[r.value] && forall j :: r.value < j < |s| ==> !s[j]
    ensures r.None? ==> forall j :: 0 <= j < |s| ==> !s[j]
  {
    if s == [] then None
    else if s[|s| - 1] then Some(|s| - 1)
    else LastTrue(s[..|s| - 1])
  }

  /** The first true flag is at `i` when flag `i` is set and none before it is. */
  lemma FirstTrueAt(s: seq<bool>, i: nat)
    requires i < |s| && s[i] && forall j :: 0 <= j < i ==> !s[j]
    ensures FirstTrue(s) == Some(i)
  {
  }

  lemma FirstTrueNone(s: seq<bool>)
    requires forall j :: 0 <= j < |s| ==> !s[j]
    ensures FirstTrue(s) == None
  {
  }

  /** Appending a first satisfying element after none: the scan stops at it. */
  lemma FirstTrueAppend<T>(s: seq<T>, p: T -> bool, x: T)
    requires forall i :: 0 <= i < |s| ==> !p(s[i])
    requires p(x)
    ensures FirstTrue(MapSeq(s + [x], p)) == Some(|s|)
  {
    var fl := MapSeq(s + [x], p);
    assert forall j :: 0 <= j < |s| ==> (s + [x])[j] == s[j];
    FirstTrueAt(fl, |s|);
  }

  /** The first element satisfying `p`, read back from the flags: it satisfies `p` and nothing before it does. */
  lemma FirstTrueMap<T>(s: seq<T>, p: T -> bool, i: nat)
    requires FirstTrue(MapSeq(s, p)) == Some(i)
    ensures i < |s| && p(s[i]) && forall j :: 0 <= j < i ==> !p(s[j])
  {
    var fl := MapSeq(s, p);
    assert fl[i];
    forall j | 0 <= j < i ensures !p(s[j]) {
      assert !fl[j];
    }
  }

  /** Some element satisfies `p` exactly when the scan finds one. */
  lemma FirstTrueExists<T>(s: seq<T>, p: T -> bool)
    ensures FirstTrue(MapSeq(s, p)).Some? <==> exists j :: 0 <= j < |s| && p(s[j])
  {
    var fl := MapSeq(s, p);
    if exists j :: 0 <= j < |s| && p(s[j]) {
      var j :| 0 <= j < |s| && p(s[j]);
      assert fl[j];
    }
  }

  lemma FirstTrueStep(s: seq<bool>, i: nat)
    requires i < |s|
    ensures FirstTrue(s[..i + 1]) == if FirstTrue(s[..i]).Some? then FirstTrue(s[..i]) else if s[i] then Some(i) else None
  {
    assert s[..i + 1][..i] == s[..i];
  }

  lemma LastTrueStep(s: seq<bool>, i: nat)
    requires i < |s|
    ensures LastTrue(s[..i + 1]) == if s[i] then Some(i) else LastTrue(s[..i])
  {
    assert s[..i + 1][..i] == s[..i];
  }

  /** The scan `for x in s: if p(x): ... break`: the index of the first element that satisfies `p`. */
  method FindFirst<T>(s: seq<T>, p: T -> bool) returns (r: Option<nat>)
    ensures r == FirstTrue(MapSeq(s, p))
  {
    ghost var fl := MapSeq(s, p);
    var i := 0;
    while i < |s|
      invariant 0 <= i <= |s|
      invariant forall j :: 0 <= j < i ==> !fl[j]
    {
      if p(s[i]) {
        FirstTrueAt(fl, i);
        return Some(i);
      }
      i := i + 1;
    }
    FirstTrueNone(fl);
    return None;
  }

  /** `head(n)`. */
  function Take<T>(s: seq<T>, n: nat): (r: seq<T>)
    ensures |r| == if |s| < n then |s| else n
    ensures r == s[..|r|]
  {
    if |s| <= n then s else s[..n]
  }

  /** `sum(1 for v in s if p(v))`. */
  function CountWhere<T>(s: seq<T>, p: T -> bool): (n: nat)
    ensures n <= |s|
    ensures n == 0 <==> forall i :: 0 <= i < |s| ==> !p(s[i])
  {
    if s == [] then 0 else CountWhere(s[..|s| - 1], p) + (if p(s[|s| - 1]) then 1 else 0)
  }

  /** `[x for x in s if p(x)]`. */
  function Filter<T>(s: seq<T>, p: T -> bool): (r: seq<T>)
    ensures |r| <= |s|
    ensures forall i :: 0 <= i < |r| ==> p(r[i]) && r[i] in s
    ensures forall i :: 0 <= i < |s| && p(s[i]) ==> s[i] in r
  {
    if s == [] then [] else Filter(s[..|s| - 1], p) + (if p(s[|s| - 1]) then [s[|s| - 1]] else [])
  }

  /** Filtering a sequence with one more element at the end. */
  lemma FilterSnoc<T>(s: seq<T>, x: T, p: T -> bool)
    ensures Filter(s + [x], p) == Filter(s, p) + (if p(x) then [x] else [])
  {
    assert (s + [x])[..|s|] == s;
  }

  /** Filtering one more element of a prefix. */
  lemma FilterTakeStep<T>(s: seq<T>, i: nat, p: T -> bool)
    requires i < |s|
    ensures Filter(s[..i + 1], p) == Filter(s[..i], p) + (if p(s[i]) then [s[i]] else [])
  {
    assert s[..i + 1] == s[..i] + [s[i]];
    FilterSnoc(s[..i], s[i], p);
  }

  /** The filter of one more element, from the filter so far and the verdict on the new element. */
  lemma FilterExtend<T>(s: seq<T>, i: nat, p: T -> bool, b: bool, acc: seq<T>)
    requires i < |s| && p(s[i]) == b && acc == Filter(s[..i], p)
    ensures Filter(s[..i + 1], p) == if b then acc + [s[i]] else acc
  {
    FilterTakeStep(s, i, p);
  }

  /** Counting in a sequence with one more element at the end. */
  lemma CountWhereSnoc<T>(s: seq<T>, x: T, p: T -> bool)
    ensures CountWhere(s + [x], p) == CountWhere(s, p) + (if p(x) then 1 else 0)
  {
    assert (s + [x])[..|s|] == s;
  }

  lemma FilterAppend<T>(a: seq<T>, b: seq<T>, p: T -> bool)
    ensures Filter(a + b, p) == Filter(a, p) + Filter(b, p)
    decreases |b|
  {
    if b == [] {
      assert a + b == a;
    } else {
      assert (a + b)[..|a + b| - 1] == a + b[..|b| - 1];
      FilterAppend(a, b[..|b| - 1], p);
    }
  }

  /** Filtering twice is filtering by both conditions. */
  lemma {:induction false} FilterFilter<T>(s: seq<T>, p: T -> bool, q: T -> bool, pq: T -> bool)
    requires forall x :: pq(x) == (p(x) && q(x))
    ensures Filter(Filter(s, p), q) == Filter(s, pq)
  {
    if s != [] {
      var s' := s[..|s| - 1];
      var x := s[|s| - 1];
      FilterFilter(s', p, q, pq);
      FilterAppend(Filter(s', p), if p(x) then [x] else [], q);
      var tail: seq<T> := if p(x) then [x] else [];
      if p(x) {
        assert tail == [x];
        assert [x][..0] == [];
        assert Filter(tail, q) == Filter([], q) + (if q(x) then [x] else []);
      } else {
        assert Filter(tail, q) == [];
      }
    }
  }

  /** Filtering by a condition every element meets changes nothing. */
  lemma {:induction false} FilterAll<T>(s: seq<T>, p: T -> bool)
    requires forall i :: 0 <= i < |s| ==> p(s[i])
    ensures Filter(s, p) == s
  {
    if s != [] {
      FilterAll(s[..|s| - 1], p);
    }
  }

  /** Filters by conditions that agree on every element are equal. */
  lemma {:induction false} FilterExt<T>(s: seq<T>, p: T -> bool, q: T -> bool)
    requires forall i :: 0 <= i < |s| ==> p(s[i]) == q(s[i])
    ensures Filter(s, p) == Filter(s, q)
  {
    if s != [] {
      FilterExt(s[..|s| - 1], p, q);
    }
  }

  function MapSeq<T, U>(s: seq<T>, f: T -> U): (r: seq<U>)
    ensures |r| == |s| && forall i :: 0 <= i < |s| ==> r[i] == f(s[i])
  {
    seq(|s|, i requires 0 <= i < |s| => f(s[i]))
  }

  /** A prefix grown by the next element of the sequence it is a prefix of. */
  lemma TakeSnoc<T>(s: seq<T>, prefix: seq<T>, i: nat, x: T)
    requires i < |s| && prefix == s[..i] && s[i] == x
    ensures prefix + [x] == s[..i + 1]
  {
  }

  /** Moving one element from the front of the tail to the end of the head. */
  lemma ShiftOne<T>(head: seq<T>, x: T, tail: seq<T>)
    ensures head + ([x] + tail) == (head + [x]) + tail
  {
  }

  /** Appending a two-element display is appending its elements one at a time. */
  lemma SnocTwo<T>(head: seq<T>, x: T, y: T)
    ensures head + [x, y] == head + [x] + [y]
  {
  }

  /** Appending a three-element display is appending its elements one at a time. */
  lemma SnocThree<T>(head: seq<T>, x: T, y: T, z: T)
    ensures head + [x, y, z] == head + [x] + [y] + [z]
  {
  }

  /** Mapping over a sequence with one more element at the end. */
  lemma MapSeqSnoc<T, U>(s: seq<T>, x: T, f: T -> U)
    ensures MapSeq(s + [x], f) == MapSeq(s, f) + [f(x)]
  {
  }

  function KeysOf<T, K>(s: seq<T>, key: T -> K): (r: seq<K>)
    ensures |r| == |s| && forall i :: 0 <= i < |s| ==> r[i] == key(s[i])
  {
    MapSeq(s, key)
  }

  /** Appending an element appends its key. */
  lemma KeysOfSnoc<T, K>(s: seq<T>, x: T, key: T -> K)
    ensures KeysOf(s + [x], key) == KeysOf(s, key) + [key(x)]
  {
  }

  predicate DistinctBy<T, K(==)>(s: seq<T>, key: T -> K)
  {
    forall i, j :: 0 <= i < j < |s| ==> key(s[i]) != key(s[j])
  }

  /** `drop_duplicates(subset=[key])`: keeps the first element of each key, in order. */
  function DedupBy<T, K(==)>(s: seq<T>, key: T -> K): (r: seq<T>)
    ensures |r| <= |s|
    ensures DistinctBy(r, key)
    ensures forall i :: 0 <= i < |r| ==> r[i] in s
    ensures forall i :: 0 <= i < |s| ==> key(s[i]) in KeysOf(r, key)
  {
    if s == [] then []
    else
      var p := DedupBy(s[..|s| - 1], key);
      var x := s[|s| - 1];
      assert forall i :: 0 <= i < |s| - 1 ==> s[i] == s[..|s| - 1][i];
      if key(x) in KeysOf(p, key) then p
      else
        assert KeysOf(p + [x], key) == KeysOf(p, key) + [key(x)];
        p + [x]
  }

  /** De-duplicating a sequence with one more element at the end. */
  lemma DedupBySnoc<T, K>(s: seq<T>, x: T, key: T -> K)
    ensures DedupBy(s + [x], key) == if key(x) in KeysOf(DedupBy(s, key), key) then DedupBy(s, key) else DedupBy(s, key) + [x]
  {
    assert (s + [x])[..|s|] == s;
  }

  /** A property every element has survives de-duplication. */
  lemma DedupByKeeps<T, K>(s: seq<T>, key: T -> K, p: T -> bool)
    requires forall i :: 0 <= i < |s| ==> p(s[i])
    ensures forall i :: 0 <= i < |DedupBy(s, key)| ==> p(DedupBy(s, key)[i])
  {
    var r := DedupBy(s, key);
    forall i | 0 <= i < |r| ensures p(r[i]) {
      var j :| 0 <= j < |s| && s[j] == r[i];
    }
  }

  /** Per element, whether its key is `q`. */
  function KeyFlags<T, K(==)>(s: seq<T>, key: T -> K, q: K): (r: seq<bool>)
    ensures |r| == |s| && forall i :: 0 <= i < |s| ==> r[i] == (key(s[i]) == q)
  {
    MapSeq(s, x => key(x) == q)
  }

  /** The element DedupBy keeps for a key is the first element of the input with that key. */
  lemma {:induction false} DedupKeepsFirst<T, K>(s: seq<T>, key: T -> K, i: nat)
    requires i < |DedupBy(s, key)|
    ensures FirstTrue(KeyFlags(s, key, key(DedupBy(s, key)[i]))).Some?
    ensures s[FirstTrue(KeyFlags(s, key, key(DedupBy(s, key)[i]))).value] == DedupBy(s, key)[i]
    decreases |s|
  {
    var r := DedupBy(s, key);
    var s' := s[..|s| - 1];
    var p := DedupBy(s', key);
    var x := s[|s| - 1];
    var q := key(r[i]);
    var fl := KeyFlags(s, key, q);
    var fl' := KeyFlags(s', key, q);
    assert fl[..|s| - 1] == fl';
    FirstTrueStep(fl, |s| - 1);
    assert fl[..|s|] == fl;
    if i < |p| {
      assert r[i] == p[i];
      DedupKeepsFirst(s', key, i);
    } else {
      assert r == p + [x] && key(x) == q;
      assert q !in KeysOf(p, key);
      forall j | 0 <= j < |s'| ensures !fl'[j] {
        assert key(s'[j]) in KeysOf(p, key);
      }
    }
  }

  function MapIdx<T, U>(s: seq<T>, f: (T, nat) -> U): (r: seq<U>)
    ensures |r| == |s| && forall i :: 0 <= i < |s| ==> r[i] == f(s[i], i)
  {
    seq(|s|, i requires 0 <= i < |s| => f(s[i], i))
  }
}
