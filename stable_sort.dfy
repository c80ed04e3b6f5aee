/** Stable sorting by an integer key: what `array.sort((a, b) => key(a) - key(b))` does, since the
    JavaScript sort is required to be stable. Defined as insertion sort and proved sorted, a
    permutation, and stable (the elements of any one key keep their relative order). */
module StableSort {
  import opened Seqs

  predicate SortedBy<T>(s: seq<T>, key: T -> int) {
    forall i, j :: 0 <= i < j < |s| ==> key(s[i]) <= key(s[j])
  }

  /** Where `x` goes in `s`: after the last element, counting from the end, whose key is at most `x`'s. */
  function InsertPos<T>(s: seq<T>, x: T, key: T -> int): (p: nat)
    ensures p <= |s|
    ensures forall i :: p <= i < |s| ==> key(s[i]) > key(x)
    ensures p > 0 ==> key(s[p - 1]) <= key(x)
    decreases |s|
  {
    if s == [] || key(s[|s| - 1]) <= key(x) then |s|
    else InsertPos(s[..|s| - 1], x, key)
  }

  function Insert<T>(s: seq<T>, x: T, key: T -> int): (r: seq<T>)
    ensures |r| == |s| + 1
  {
    var p := InsertPos(s, x, key);
    s[..p] + [x] + s[p..]
  }

  function SortBy<T>(s: seq<T>, key: T -> int): (r: seq<T>)
    ensures |r| == |s|
    decreases |s|
  {
    if s == [] then []
    else Insert(SortBy(s[..|s| - 1], key), s[|s| - 1], key)
  }

  /** Two elements out of order by their keys are swapped. */
  lemma SortTwo<T>(a: T, b: T, key: T -> int)
    requires key(b) < key(a)
    ensures SortBy([a, b], key) == [b, a]
  {
    assert [a, b][..1] == [a];
    assert SortBy([a], key) == [a] by {
      assert [a][..0] == [];
    }
    assert InsertPos([a], b, key) == 0 by {
      assert [a][..0] == [];
    }
  }

  lemma InsertPermutation<T>(s: seq<T>, x: T, key: T -> int)
    ensures multiset(Insert(s, x, key)) == multiset(s) + multiset{x}
  {
    var p := InsertPos(s, x, key);
    assert s == s[..p] + s[p..];
  }

  /** Sorting only reorders: the result holds the same elements, each as often as the input. */
  lemma {:induction false} SortByPermutation<T>(s: seq<T>, key: T -> int)
    ensures multiset(SortBy(s, key)) == multiset(s)
    decreases |s|
  {
    if s != [] {
      var init, last := s[..|s| - 1], s[|s| - 1];
      SortByPermutation(init, key);
      InsertPermutation(SortBy(init, key), last, key);
      assert init + [last] == s;
    }
  }

  /** In a sorted sequence, `x` is placed after every element with a key at most its own and before
      every element with a larger key. */
  lemma InsertPlacement<T>(s: seq<T>, x: T, key: T -> int)
    requires SortedBy(s, key)
    ensures forall i :: 0 <= i < InsertPos(s, x, key) ==> key(s[i]) <= key(x)
    ensures forall i :: InsertPos(s, x, key) <= i < |s| ==> key(s[i]) > key(x)
  {
    var p := InsertPos(s, x, key);
    forall i | 0 <= i < p ensures key(s[i]) <= key(x) {
      assert key(s[i]) <= key(s[p - 1]);
    }
  }

  lemma InsertSorted<T>(s: seq<T>, x: T, key: T -> int)
    requires SortedBy(s, key)
    ensures SortedBy(Insert(s, x, key), key)
  {
    InsertPlacement(s, x, key);
    var p := InsertPos(s, x, key);
    var r := Insert(s, x, key);
    forall i, j | 0 <= i < j < |r| ensures key(r[i]) <= key(r[j]) {
      if j < p {
        assert r[i] == s[i] && r[j] == s[j];
      } else if j == p {
        assert r[i] == s[i] && r[j] == x;
      } else if i < p {
        assert r[i] == s[i] && r[j] == s[j - 1];
      } else if i == p {
        assert r[i] == x && r[j] == s[j - 1];
      } else {
        assert r[i] == s[i - 1] && r[j] == s[j - 1];
      }
    }
  }

  /** The result of `SortBy` is ordered by the key. */
  lemma {:induction false} SortBySorted<T>(s: seq<T>, key: T -> int)
    ensures SortedBy(SortBy(s, key), key)
    decreases |s|
  {
    if s != [] {
      SortBySorted(s[..|s| - 1], key);
      InsertSorted(SortBy(s[..|s| - 1], key), s[|s| - 1], key);
    }
  }

  /** Sorting a sequence that is already ordered leaves it as it is. */
  lemma {:induction false} SortBySortedIdentity<T>(s: seq<T>, key: T -> int)
    requires SortedBy(s, key)
    ensures SortBy(s, key) == s
    decreases |s|
  {
    if s != [] {
      var init := s[..|s| - 1];
      assert SortedBy(init, key);
      SortBySortedIdentity(init, key);
      assert init + [s[|s| - 1]] == s;
    }
  }

  /** Sorting `s + [x]` is sorting `s` and inserting `x`. */
  lemma SortByAppend<T>(s: seq<T>, x: T, key: T -> int)
    ensures SortBy(s + [x], key) == Insert(SortBy(s, key), x, key)
  {
    assert (s + [x])[..|s|] == s;
  }

  /** The elements whose key is `k`. */
  function WithKey<T>(key: T -> int, k: int): T -> bool {
    x => key(x) == k
  }

  lemma InsertStable<T>(s: seq<T>, x: T, key: T -> int, k: int)
    ensures Filter(Insert(s, x, key), WithKey(key, k)) ==
            Filter(s, WithKey(key, k)) + (if key(x) == k then [x] else [])
  {
    var p := InsertPos(s, x, key);
    if key(x) == k {
      NoneAfterWithKey(s, x, key, k);
    }
    assert s == s[..p] + s[p..];
    FilterAround(s[..p], x, s[p..], WithKey(key, k));
  }

  /** Putting `x` between `a` and `b` adds it at the end of the kept elements when nothing in `b` is kept. */
  lemma FilterAround<T>(a: seq<T>, x: T, b: seq<T>, f: T -> bool)
    requires f(x) ==> Filter(b, f) == []
    ensures Filter(a + [x] + b, f) == Filter(a + b, f) + (if f(x) then [x] else [])
  {
    var fa, fb := Filter(a, f), Filter(b, f);
    assert a + [x] + b == a + ([x] + b);
    FilterConcat(a, [x] + b, f);
    FilterConcat([x], b, f);
    FilterConcat(a, b, f);
    FilterSingleton(x, f);
    if f(x) {
      assert fa + ([x] + fb) == fa + [x];
    } else {
      assert fa + ([] + fb) == fa + fb;
    }
  }

  /** The elements after the insertion point all have keys larger than `x`'s, so none has `x`'s key. */
  lemma NoneAfterWithKey<T>(s: seq<T>, x: T, key: T -> int, k: int)
    requires key(x) == k
    ensures Filter(s[InsertPos(s, x, key)..], WithKey(key, k)) == []
  {
    var b := s[InsertPos(s, x, key)..];
    var r := Filter(b, WithKey(key, k));
    if r != [] {
      FilterMember(b, WithKey(key, k), r[0]);
    }
  }

  /** Stability: for every key, the elements with that key appear in the sorted result in the order
      they had in the input. */
  lemma {:induction false} SortByStable<T>(s: seq<T>, key: T -> int, k: int)
    ensures Filter(SortBy(s, key), WithKey(key, k)) == Filter(s, WithKey(key, k))
    decreases |s|
  {
    if s != [] {
      var init, last := s[..|s| - 1], s[|s| - 1];
      assert init + [last] == s;
      SortByStable(init, key, k);
      InsertStable(SortBy(init, key), last, key, k);
      FilterConcat(init, [last], WithKey(key, k));
    }
  }

  /** Filtering keeps the order of what it keeps, so it keeps a sorted sequence sorted. */
  lemma {:induction false} FilterSorted<T>(s: seq<T>, p: T -> bool, key: T -> int)
    requires SortedBy(s, key)
    ensures SortedBy(Filter(s, p), key)
    decreases |s|
  {
    if s != [] {
      var tail := s[1..];
      assert SortedBy(tail, key);
      FilterSorted(tail, p, key);
      var ft := Filter(tail, p);
      if p(s[0]) {
        forall y | y in ft ensures key(s[0]) <= key(y) {
          FilterMember(tail, p, y);
          var j :| 0 <= j < |tail| && tail[j] == y;
          assert s[j + 1] == y;
        }
        var r := [s[0]] + ft;
        forall i, j | 0 <= i < j < |r| ensures key(r[i]) <= key(r[j]) {
          if i == 0 {
            assert r[j] == ft[j - 1] && r[j] in ft;
          } else {
            assert r[i] == ft[i - 1] && r[j] == ft[j - 1];
          }
        }
      } else {
        assert Filter(s, p) == ft;
      }
    }
  }
}
