/**
 * `Array.prototype.sort` with a numeric comparator `(a, b) => key(a) - key(b)`.
 * ECMA-262 (since the 2019 edition) requires the sort to be stable, so the
 * result is determined: ordered by key, and elements with equal keys in
 * their original relative order. The source always sorts a copy
 * (`[...xs].sort(...)`); sequences are values here, so the input is never
 * changed.
 */
module Sorting {
  import opened Sequences

  predicate SortedBy<T>(s: seq<T>, key: T -> int) {
    forall i, j | 0 <= i < j < |s| :: key(s[i]) <= key(s[j])
  }

  /** The elements of `s` whose key is `k`, in their order in `s`. */
  function WithKey<T>(s: seq<T>, key: T -> int, k: int): seq<T> {
    if s == [] then []
    else (if key(s[0]) == k then [s[0]] else []) + WithKey(s[1..], key, k)
  }

  /** Puts `x` in front of the first element whose key is not smaller than its own. */
  function Insert<T>(x: T, s: seq<T>, key: T -> int): (r: seq<T>)
    ensures |r| == |s| + 1
    ensures multiset(r) == multiset(s) + multiset{x}
  {
    if s == [] then [x]
    else if key(x) <= key(s[0]) then [x] + s
    else
      assert s == [s[0]] + s[1..];
      [s[0]] + Insert(x, s[1..], key)
  }

  /** The stable sort by ascending `key`. */
  function SortBy<T>(s: seq<T>, key: T -> int): (r: seq<T>)
    ensures |r| == |s|
    ensures multiset(r) == multiset(s)
  {
    if s == [] then []
    else
      assert s == [s[0]] + s[1..];
      Insert(s[0], SortBy(s[1..], key), key)
  }

  predicate KeysAtLeast<T>(s: seq<T>, key: T -> int, b: int) {
    forall i | 0 <= i < |s| :: b <= key(s[i])
  }

  lemma {:induction false} InsertKeysAtLeast<T>(x: T, s: seq<T>, key: T -> int, b: int)
    requires KeysAtLeast(s, key, b) && b <= key(x)
    ensures KeysAtLeast(Insert(x, s, key), key, b)
    decreases |s|
  {
    if s != [] && key(x) > key(s[0]) {
      InsertKeysAtLeast(x, s[1..], key, b);
    }
  }

  lemma {:induction false} InsertSorted<T>(x: T, s: seq<T>, key: T -> int)
    requires SortedBy(s, key)
    ensures SortedBy(Insert(x, s, key), key)
    decreases |s|
  {
    if s != [] && key(x) > key(s[0]) {
      var tail := Insert(x, s[1..], key);
      InsertSorted(x, s[1..], key);
      InsertKeysAtLeast(x, s[1..], key, key(s[0]));
      assert Insert(x, s, key) == [s[0]] + tail;
    }
  }

  /** The sort orders its result by key. */
  lemma {:induction false} SortBySorted<T>(s: seq<T>, key: T -> int)
    ensures SortedBy(SortBy(s, key), key)
    decreases |s|
  {
    if s != [] {
      SortBySorted(s[1..], key);
      InsertSorted(s[0], SortBy(s[1..], key), key);
    }
  }

  lemma {:induction false} InsertWithKey<T>(x: T, s: seq<T>, key: T -> int, k: int)
    ensures WithKey(Insert(x, s, key), key, k) == (if key(x) == k then [x] else []) + WithKey(s, key, k)
    decreases |s|
  {
    if s == [] {
      assert [x][1..] == [];
    } else if key(x) <= key(s[0]) {
      assert ([x] + s)[1..] == s;
    } else {
      var t := Insert(x, s[1..], key);
      var w := WithKey(s[1..], key, k);
      InsertWithKey(x, s[1..], key, k);
      assert Insert(x, s, key) == [s[0]] + t;
      assert ([s[0]] + t)[1..] == t;
      if key(s[0]) == k {
        assert WithKey(Insert(x, s, key), key, k) == [s[0]] + WithKey(t, key, k);
        assert WithKey(t, key, k) == w;
      } else {
        assert WithKey(Insert(x, s, key), key, k) == [] + WithKey(t, key, k);
        assert WithKey(s, key, k) == [] + w;
      }
    }
  }

  /**
   * Stability: for every key, the elements carrying it appear in the sorted
   * result in exactly the order they had in the input.
   */
  lemma {:induction false} SortByStable<T>(s: seq<T>, key: T -> int, k: int)
    ensures WithKey(SortBy(s, key), key, k) == WithKey(s, key, k)
    decreases |s|
  {
    if s != [] {
      SortByStable(s[1..], key, k);
      InsertWithKey(s[0], SortBy(s[1..], key), key, k);
    }
  }

  /** The first element of a non-empty sorted result carries the smallest key of the input, the last the largest. */
  lemma SortByExtremes<T>(s: seq<T>, key: T -> int)
    requires s != []
    ensures SortBy(s, key)[0] in s && SortBy(s, key)[|s| - 1] in s
    ensures forall x | x in s :: key(SortBy(s, key)[0]) <= key(x) <= key(SortBy(s, key)[|s| - 1])
  {
    SortBySorted(s, key);
    SortedBounds(s, SortBy(s, key), key);
  }

  /** A sorted rearrangement of a non-empty sequence starts with a smallest key and ends with a largest. */
  lemma SortedBounds<T>(s: seq<T>, r: seq<T>, key: T -> int)
    requires s != [] && |r| == |s| && SortedBy(r, key) && multiset(r) == multiset(s)
    ensures r[0] in s && r[|s| - 1] in s
    ensures forall x | x in s :: key(r[0]) <= key(x) <= key(r[|s| - 1])
  {
    assert r[0] in multiset(r) && r[|r| - 1] in multiset(r);
    forall x | x in s ensures key(r[0]) <= key(x) <= key(r[|r| - 1]) {
      assert x in multiset(s);
      var m :| 0 <= m < |r| && r[m] == x;
    }
  }
  /** The smallest key of a non-empty sequence, computed independently of the sort. */
  function MinKey<T>(s: seq<T>, key: T -> int): (m: int)
    requires s != []
    ensures exists i :: 0 <= i < |s| && key(s[i]) == m
    ensures forall i | 0 <= i < |s| :: m <= key(s[i])
    decreases |s|
  {
    if |s| == 1 then key(s[0])
    else
      var m := MinKey(s[1..], key);
      var i :| 0 <= i < |s| - 1 && key(s[1..][i]) == m;
      assert key(s[i + 1]) == m;
      if key(s[0]) <= m then key(s[0]) else m
  }

  /** The largest key of a non-empty sequence, computed independently of the sort. */
  function MaxKey<T>(s: seq<T>, key: T -> int): (m: int)
    requires s != []
    ensures exists i :: 0 <= i < |s| && key(s[i]) == m
    ensures forall i | 0 <= i < |s| :: key(s[i]) <= m
    decreases |s|
  {
    if |s| == 1 then key(s[0])
    else
      var m := MaxKey(s[1..], key);
      var i :| 0 <= i < |s| - 1 && key(s[1..][i]) == m;
      assert key(s[i + 1]) == m;
      if key(s[0]) >= m then key(s[0]) else m
  }

  /** The sorted copy starts with a smallest key and ends with a largest one. */
  lemma SortByEnds<T>(s: seq<T>, key: T -> int)
    requires s != []
    ensures key(SortBy(s, key)[0]) == MinKey(s, key)
    ensures key(SortBy(s, key)[|s| - 1]) == MaxKey(s, key)
  {
    var r := SortBy(s, key);
    SortByExtremes(s, key);
    ExtremeKey(s, key, r[0], MinKey(s, key), MaxKey(s, key));
    ExtremeKey(s, key, r[|s| - 1], MinKey(s, key), MaxKey(s, key));
  }

  /** An element of `s` whose key bounds every key from below (above) carries the least (greatest) key. */
  lemma ExtremeKey<T>(s: seq<T>, key: T -> int, v: T, lo: int, hi: int)
    requires v in s
    requires exists i :: 0 <= i < |s| && key(s[i]) == lo
    requires forall i | 0 <= i < |s| :: lo <= key(s[i])
    requires exists i :: 0 <= i < |s| && key(s[i]) == hi
    requires forall i | 0 <= i < |s| :: key(s[i]) <= hi
    ensures (forall x | x in s :: key(v) <= key(x)) ==> key(v) == lo
    ensures (forall x | x in s :: key(x) <= key(v)) ==> key(v) == hi
  {
    var i :| 0 <= i < |s| && key(s[i]) == lo;
    var j :| 0 <= j < |s| && key(s[j]) == hi;
    var a :| 0 <= a < |s| && s[a] == v;
    assert s[i] in s && s[j] in s;
  }

  /** Two elements with equal keys keep their order. */
  lemma SortByTie<T>(x: T, y: T, key: T -> int)
    requires key(x) == key(y)
    ensures SortBy([x, y], key) == [x, y]
  {
    assert [x, y][1..] == [y];
    assert [y][1..] == [];
  }

  /** Filtering a sorted sequence leaves it sorted. */
  lemma {:induction false} FilterSorted<T(!new)>(s: seq<T>, p: T -> bool, key: T -> int)
    requires SortedBy(s, key)
    ensures SortedBy(Filter(s, p), key)
    decreases |s|
  {
    if s != [] {
      var t := Filter(s[1..], p);
      assert SortedBy(s[1..], key) by {
        forall i, j | 0 <= i < j < |s[1..]| ensures key(s[1..][i]) <= key(s[1..][j]) {
          assert s[1..][i] == s[i + 1] && s[1..][j] == s[j + 1];
        }
      }
      FilterSorted(s[1..], p, key);
      if p(s[0]) {
        FilterMembers(s[1..], p);
        forall k | 0 <= k < |t| ensures key(s[0]) <= key(t[k]) {
          assert t[k] in s[1..];
          var m :| 0 <= m < |s[1..]| && s[1..][m] == t[k];
          assert s[m + 1] == t[k];
        }
        var r := [s[0]] + t;
        forall i, j | 0 <= i < j < |r| ensures key(r[i]) <= key(r[j]) {
          if i > 0 {
            assert r[i] == t[i - 1] && r[j] == t[j - 1];
          } else {
            assert r[j] == t[j - 1];
          }
        }
      }
    }
  }
}
