/** Sequence utilities the loaders share: grouping rows by key in first
    appearance order (the model of the loaders' `computeIfAbsent(...).add`
    maps) and a stable sort by an integer key (the model of `List.sort`). */
module Collections {
  import opened Wrappers

  // ---------------------------------------------------------------------------
  // Filtering by key

  /** The elements of `s` whose key is `k`, in order. */
  function Select<K(==,!new), V>(s: seq<(K, V)>, k: K): (r: seq<V>)
    ensures |r| <= |s|
  {
    if |s| == 0 then []
    else Select(s[..|s| - 1], k) + (if s[|s| - 1].0 == k then [s[|s| - 1].1] else [])
  }

  predicate NoDuplicates<K(==)>(s: seq<K>) {
    forall i, j :: 0 <= i < j < |s| ==> s[i] != s[j]
  }

  /** A key with a non-empty selection occurs in the sequence. */
  lemma {:induction false} SelectNonEmpty<K(!new), V>(s: seq<(K, V)>, k: K)
    requires Select(s, k) != []
    ensures exists i :: 0 <= i < |s| && s[i].0 == k
    decreases |s|
  {
    if s[|s| - 1].0 != k {
      SelectNonEmpty(s[..|s| - 1], k);
      var i :| 0 <= i < |s| - 1 && s[..|s| - 1][i].0 == k;
      assert s[i].0 == k;
    }
  }

  /** Each selected value comes from some pair with that key. */
  lemma {:induction false} SelectedFrom<K(!new), V>(s: seq<(K, V)>, k: K, j: int)
    requires 0 <= j < |Select(s, k)|
    ensures exists i :: 0 <= i < |s| && s[i] == (k, Select(s, k)[j])
    decreases |s|
  {
    var init := s[..|s| - 1];
    if j < |Select(init, k)| {
      SelectedFrom(init, k, j);
      var i :| 0 <= i < |init| && init[i] == (k, Select(init, k)[j]);
      assert s[i] == init[i];
    } else {
      assert s[|s| - 1] == (k, Select(s, k)[j]);
    }
  }

  /** A pair's value is among the values selected by its key. */
  lemma {:induction false} SelectHas<K(!new), V>(s: seq<(K, V)>, i: int)
    requires 0 <= i < |s|
    ensures s[i].1 in Select(s, s[i].0)
    decreases |s|
  {
    if i < |s| - 1 {
      SelectHas(s[..|s| - 1], i);
    }
  }

  // ---------------------------------------------------------------------------
  // First occurrences

  /** The reference: the elements of `s`, each kept where it first occurs. */
  function Dedup<T(==)>(s: seq<T>): seq<T>
    decreases |s|
  {
    if |s| == 0 then []
    else
      var d := Dedup(s[..|s| - 1]);
      if s[|s| - 1] in d then d else d + [s[|s| - 1]]
  }

  /** The reference keeps every element once and no other. */
  lemma {:induction false} DedupDistinct<T(!new)>(s: seq<T>)
    ensures NoDuplicates(Dedup(s))
    ensures forall x :: x in Dedup(s) <==> x in s
    decreases |s|
  {
    if |s| > 0 {
      var init := s[..|s| - 1];
      DedupDistinct(init);
      assert s == init + [s[|s| - 1]];
    }
  }

  /** A list without duplicates is its own reference. */
  lemma {:induction false} DedupOfDistinct<T(!new)>(s: seq<T>)
    requires NoDuplicates(s)
    ensures Dedup(s) == s
    decreases |s|
  {
    if |s| > 0 {
      var init := s[..|s| - 1];
      DedupOfDistinct(init);
      assert s[|s| - 1] !in init;
      assert init + [s[|s| - 1]] == s;
    }
  }

  /** The reference over a distinct list followed by more elements starts with
      that list. */
  lemma {:induction false} DedupPrefix<T(!new)>(a: seq<T>, b: seq<T>)
    requires NoDuplicates(a)
    ensures |Dedup(a + b)| >= |a| && Dedup(a + b)[..|a|] == a
    decreases |b|
  {
    if |b| == 0 {
      assert a + b == a;
      DedupOfDistinct(a);
    } else {
      var init := b[..|b| - 1];
      DedupPrefix(a, init);
      var all := a + b;
      assert all[..|all| - 1] == a + init;
    }
  }

  // ---------------------------------------------------------------------------
  // Grouping

  /** A map from keys to the values listed under them, and the keys in the
      order they first appeared. */
  datatype Groups<K(==,!new), V> = Groups(lists: map<K, seq<V>>, order: seq<K>)

  /** Appends one value to the list of its key, creating the list if needed. */
  function AddToGroup<K(==,!new), V>(g: Groups<K, V>, k: K, v: V): (r: Groups<K, V>)
    ensures k in r.lists && r.lists[k] == (if k in g.lists then g.lists[k] else []) + [v]
    ensures forall k' :: k' != k ==> (k' in r.lists <==> k' in g.lists)
    ensures forall k' :: k' != k && k' in g.lists ==> r.lists[k'] == g.lists[k']
    ensures r.order == if k in g.lists then g.order else g.order + [k]
  {
    if k in g.lists then Groups(g.lists[k := g.lists[k] + [v]], g.order)
    else Groups(g.lists[k := [v]], g.order + [k])
  }

  /** Groups a sequence of (key, value) pairs. */
  function GroupBy<K(==,!new), V>(s: seq<(K, V)>): (g: Groups<K, V>)
  {
    if |s| == 0 then Groups(map[], [])
    else AddToGroup(GroupBy(s[..|s| - 1]), s[|s| - 1].0, s[|s| - 1].1)
  }

  /** Every key's list holds exactly the values listed under that key, in
      their original order. */
  lemma {:induction false} GroupByLists<K(!new), V>(s: seq<(K, V)>)
    ensures forall k :: k in GroupBy(s).lists <==> Select(s, k) != []
    ensures forall k :: k in GroupBy(s).lists ==> GroupBy(s).lists[k] == Select(s, k)
    decreases |s|
  {
    if |s| > 0 {
      var init := s[..|s| - 1];
      var (k0, v0) := s[|s| - 1];
      GroupByLists(init);
      var g0 := GroupBy(init);
      assert GroupBy(s) == AddToGroup(g0, k0, v0);
      forall k
        ensures k in GroupBy(s).lists <==> Select(s, k) != []
        ensures k in GroupBy(s).lists ==> GroupBy(s).lists[k] == Select(s, k)
      {
        assert Select(s, k) == Select(init, k) + (if k == k0 then [v0] else []);
      }
    }
  }

  /** The key order lists every key once, in order of first appearance. */
  lemma {:induction false} GroupByOrder<K(!new), V>(s: seq<(K, V)>)
    ensures forall k :: k in GroupBy(s).lists <==> k in GroupBy(s).order
    ensures NoDuplicates(GroupBy(s).order)
    decreases |s|
  {
    if |s| > 0 {
      var init := s[..|s| - 1];
      GroupByOrder(init);
      var g0 := GroupBy(init);
      var g := GroupBy(s);
      assert g == AddToGroup(g0, s[|s| - 1].0, s[|s| - 1].1);
      assert forall k :: k in g.lists <==> k in g0.lists || k == s[|s| - 1].0;
    }
  }

  // ---------------------------------------------------------------------------
  // Maps where the last row wins

  /** `map.put` of every pair in turn: a later pair replaces an earlier one. */
  function ToMap<K(==), V>(s: seq<(K, V)>): map<K, V>
  {
    if |s| == 0 then map[]
    else ToMap(s[..|s| - 1])[s[|s| - 1].0 := s[|s| - 1].1]
  }

  /** A key is mapped iff some pair names it, and to the value of the last such pair. */
  lemma {:induction false} ToMapLast<K(!new), V>(s: seq<(K, V)>)
    ensures forall k :: k in ToMap(s) <==> Select(s, k) != []
    ensures forall k :: k in ToMap(s) ==> ToMap(s)[k] == Select(s, k)[|Select(s, k)| - 1]
    decreases |s|
  {
    if |s| > 0 {
      var init := s[..|s| - 1];
      ToMapLast(init);
      forall k
        ensures k in ToMap(s) <==> Select(s, k) != []
        ensures k in ToMap(s) ==> ToMap(s)[k] == Select(s, k)[|Select(s, k)| - 1]
      {
        assert Select(s, k) == Select(init, k) + (if k == s[|s| - 1].0 then [s[|s| - 1].1] else []);
      }
    }
  }

  /** Every pair's key is mapped. */
  lemma {:induction false} ToMapHas<K(!new), V>(s: seq<(K, V)>, i: int)
    requires 0 <= i < |s|
    ensures s[i].0 in ToMap(s)
    decreases |s|
  {
    if i < |s| - 1 {
      ToMapHas(s[..|s| - 1], i);
    }
  }

  /** A mapped value comes from the last pair naming its key. */
  lemma {:induction false} ToMapFromLast<K(!new), V>(s: seq<(K, V)>, k: K)
    requires k in ToMap(s)
    ensures exists i :: 0 <= i < |s| && s[i] == (k, ToMap(s)[k]) && forall j :: i < j < |s| ==> s[j].0 != k
    decreases |s|
  {
    var init := s[..|s| - 1];
    if s[|s| - 1].0 != k {
      ToMapFromLast(init, k);
      var i :| 0 <= i < |init| && init[i] == (k, ToMap(init)[k]) && forall j :: i < j < |init| ==> init[j].0 != k;
      assert s[i] == init[i];
    }
  }

  // ---------------------------------------------------------------------------
  // Dropping skipped rows

  /** The present values, in order (the rows a loader keeps after `continue`s). */
  function Somes<T>(s: seq<Option<T>>): (r: seq<T>)
    ensures |r| <= |s|
  {
    if |s| == 0 then []
    else Somes(s[..|s| - 1]) + (if s[|s| - 1].Some? then [s[|s| - 1].value] else [])
  }

  /** Each kept value is present at some position, and every present value is kept. */
  lemma {:induction false} SomesFrom<T>(s: seq<Option<T>>, i: int)
    requires 0 <= i < |Somes(s)|
    ensures exists j :: 0 <= j < |s| && s[j] == Some(Somes(s)[i])
    decreases |s|
  {
    var init := s[..|s| - 1];
    if i < |Somes(init)| {
      SomesFrom(init, i);
      var j :| 0 <= j < |init| && init[j] == Some(Somes(init)[i]);
      assert s[j] == init[j];
    }
  }

  lemma {:induction false} SomesHas<T>(s: seq<Option<T>>, j: int)
    requires 0 <= j < |s| && s[j].Some?
    ensures s[j].value in Somes(s)
    decreases |s|
  {
    if j < |s| - 1 {
      SomesHas(s[..|s| - 1], j);
    }
  }

  // ---------------------------------------------------------------------------
  // Stable sort

  predicate SortedBy<T>(s: seq<T>, key: T -> int) {
    forall i, j :: 0 <= i < j < |s| ==> key(s[i]) <= key(s[j])
  }

  /** The elements of `s` whose key is `k`, in order. */
  function WithKey<T>(s: seq<T>, key: T -> int, k: int): (r: seq<T>)
    ensures |r| <= |s|
  {
    if |s| == 0 then []
    else WithKey(s[..|s| - 1], key, k) + (if key(s[|s| - 1]) == k then [s[|s| - 1]] else [])
  }

  lemma {:induction false} WithKeyAppend<T>(a: seq<T>, b: seq<T>, key: T -> int, k: int)
    ensures WithKey(a + b, key, k) == WithKey(a, key, k) + WithKey(b, key, k)
    decreases |b|
  {
    if |b| > 0 {
      assert (a + b)[..|a + b| - 1] == a + b[..|b| - 1];
      WithKeyAppend(a, b[..|b| - 1], key, k);
    } else {
      assert a + b == a;
    }
  }

  /** Inserts `x` after every element whose key is not larger. */
  function Insert<T>(s: seq<T>, x: T, key: T -> int): (r: seq<T>)
    ensures |r| == |s| + 1
    ensures multiset(r) == multiset(s) + multiset{x}
  {
    if |s| == 0 || key(s[|s| - 1]) <= key(x) then s + [x]
    else
      assert s == s[..|s| - 1] + [s[|s| - 1]];
      Insert(s[..|s| - 1], x, key) + [s[|s| - 1]]
  }

  /** `List.sort` with a key comparator: an insertion sort that never moves
      an element past another with the same key. */
  function SortBy<T>(s: seq<T>, key: T -> int): (r: seq<T>)
    ensures |r| == |s|
    ensures multiset(r) == multiset(s)
  {
    if |s| == 0 then []
    else
      assert s == s[..|s| - 1] + [s[|s| - 1]];
      Insert(SortBy(s[..|s| - 1], key), s[|s| - 1], key)
  }

  /** Inserting below a bound keeps every key below it. */
  lemma {:induction false} InsertBounded<T>(s: seq<T>, x: T, key: T -> int, b: int)
    requires forall i :: 0 <= i < |s| ==> key(s[i]) <= b
    requires key(x) <= b
    ensures forall i :: 0 <= i < |Insert(s, x, key)| ==> key(Insert(s, x, key)[i]) <= b
    decreases |s|
  {
    if |s| > 0 && key(s[|s| - 1]) > key(x) {
      InsertBounded(s[..|s| - 1], x, key, b);
    }
  }

  lemma {:induction false} InsertSorted<T>(s: seq<T>, x: T, key: T -> int)
    requires SortedBy(s, key)
    ensures SortedBy(Insert(s, x, key), key)
    decreases |s|
  {
    if |s| > 0 && key(s[|s| - 1]) > key(x) {
      var init := s[..|s| - 1];
      var last := s[|s| - 1];
      InsertSorted(init, x, key);
      InsertBounded(init, x, key, key(last));
      assert Insert(s, x, key) == Insert(init, x, key) + [last];
    }
  }

  /** The result is ordered by key. */
  lemma {:induction false} SortBySorted<T>(s: seq<T>, key: T -> int)
    ensures SortedBy(SortBy(s, key), key)
    decreases |s|
  {
    if |s| > 0 {
      SortBySorted(s[..|s| - 1], key);
      InsertSorted(SortBy(s[..|s| - 1], key), s[|s| - 1], key);
    }
  }

  lemma {:induction false} InsertStable<T>(s: seq<T>, x: T, key: T -> int, k: int)
    ensures WithKey(Insert(s, x, key), key, k) == WithKey(s, key, k) + (if key(x) == k then [x] else [])
    decreases |s|
  {
    if |s| == 0 || key(s[|s| - 1]) <= key(x) {
      WithKeyAppend(s, [x], key, k);
      assert WithKey([x], key, k) == (if key(x) == k then [x] else []) by {
        assert [x][..0] == [];
      }
    } else {
      var init := s[..|s| - 1];
      var last := s[|s| - 1];
      InsertStable(init, x, key, k);
      assert Insert(s, x, key) == Insert(init, x, key) + [last];
      assert s == init + [last];
      WithKeyAppend(Insert(init, x, key), [last], key, k);
      WithKeyAppend(init, [last], key, k);
      assert WithKey([last], key, k) == (if key(last) == k then [last] else []) by {
        assert [last][..0] == [];
      }
    }
  }

  /** Stability: elements with equal keys keep their relative order. */
  lemma {:induction false} SortByStable<T>(s: seq<T>, key: T -> int, k: int)
    ensures WithKey(SortBy(s, key), key, k) == WithKey(s, key, k)
    decreases |s|
  {
    if |s| > 0 {
      SortByStable(s[..|s| - 1], key, k);
      InsertStable(SortBy(s[..|s| - 1], key), s[|s| - 1], key, k);
    }
  }
}
