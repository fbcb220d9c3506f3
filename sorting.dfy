/** Python's `sorted(xs, key=...)` and `list.sort(key=...)`: a stable sort.
    Keys are pairs of integers compared lexicographically, which covers every
    key the program sorts by (`(priority, -area)`, `(is_hero, -area)`, and a
    descending area written as `(-area, 0)`). */
module Sorting {

  type Key = (int, int)

  predicate KeyLe(a: Key, b: Key) {
    a.0 < b.0 || (a.0 == b.0 && a.1 <= b.1)
  }

  /** Inserts `x` in front of the first element whose key is not smaller. */
  function Insert<T>(x: T, s: seq<T>, key: T -> Key): seq<T>
    decreases |s|
  {
    if s == [] || KeyLe(key(x), key(s[0])) then [x] + s
    else [s[0]] + Insert(x, s[1..], key)
  }

  /** The stable sort: insertion from the back, so that an element is placed in
      front of the later elements with an equal key. */
  function SortBy<T>(s: seq<T>, key: T -> Key): seq<T>
    decreases |s|
  {
    if s == [] then [] else Insert(s[0], SortBy(s[1..], key), key)
  }

  predicate SortedBy<T>(s: seq<T>, key: T -> Key) {
    forall i, j :: 0 <= i < j < |s| ==> KeyLe(key(s[i]), key(s[j]))
  }

  /** The elements of `s` whose key is `k`, in their order in `s`. */
  function WithKey<T>(s: seq<T>, key: T -> Key, k: Key): seq<T>
    decreases |s|
  {
    if s == [] then []
    else (if key(s[0]) == k then [s[0]] else []) + WithKey(s[1..], key, k)
  }

  lemma {:induction false} InsertPermutes<T>(x: T, s: seq<T>, key: T -> Key)
    ensures multiset(Insert(x, s, key)) == multiset(s) + multiset{x}
    decreases |s|
  {
    if s == [] || KeyLe(key(x), key(s[0])) {
    } else {
      InsertPermutes(x, s[1..], key);
      assert s == [s[0]] + s[1..];
    }
  }

  lemma {:induction false} InsertSorted<T>(x: T, s: seq<T>, key: T -> Key)
    requires SortedBy(s, key)
    ensures SortedBy(Insert(x, s, key), key)
    decreases |s|
  {
    if s == [] || KeyLe(key(x), key(s[0])) {
      forall j | 0 <= j < |s| ensures KeyLe(key(x), key(s[j])) {
        if j > 0 {
          assert KeyLe(key(s[0]), key(s[j]));
        }
      }
      SortedCons(x, s, key);
    } else {
      InsertSorted(x, s[1..], key);
      InsertPermutes(x, s[1..], key);
      var t := Insert(x, s[1..], key);
      forall j | 0 <= j < |t| ensures KeyLe(key(s[0]), key(t[j])) {
        assert t[j] in multiset(t);
        if t[j] != x {
          assert t[j] in multiset(s[1..]);
          var m :| 0 <= m < |s[1..]| && s[1..][m] == t[j];
          assert s[m + 1] == t[j];
        }
      }
      SortedCons(s[0], t, key);
    }
  }

  /** An element whose key is at most every key of a sorted list keeps it
      sorted when put in front. */
  lemma SortedCons<T>(y: T, t: seq<T>, key: T -> Key)
    requires SortedBy(t, key) && forall j :: 0 <= j < |t| ==> KeyLe(key(y), key(t[j]))
    ensures SortedBy([y] + t, key)
  {
    var r := [y] + t;
    forall i, j | 0 <= i < j < |r| ensures KeyLe(key(r[i]), key(r[j])) {
      if i > 0 {
        assert r[i] == t[i - 1] && r[j] == t[j - 1];
      } else {
        assert r[j] == t[j - 1];
      }
    }
  }

  lemma {:induction false} InsertWithKey<T>(x: T, s: seq<T>, key: T -> Key, k: Key)
    ensures WithKey(Insert(x, s, key), key, k)
         == (if key(x) == k then [x] else []) + WithKey(s, key, k)
    decreases |s|
  {
    if s == [] || KeyLe(key(x), key(s[0])) {
      assert ([x] + s)[1..] == s;
    } else {
      InsertWithKey(x, s[1..], key, k);
      assert ([s[0]] + Insert(x, s[1..], key))[1..] == Insert(x, s[1..], key);
    }
  }

  /** The sort returns a permutation of its input, in key order, and keeps the
      input order among elements with equal keys (stability). */
  lemma SortByCorrect<T>(s: seq<T>, key: T -> Key)
    ensures multiset(SortBy(s, key)) == multiset(s)
    ensures |SortBy(s, key)| == |s|
    ensures SortedBy(SortBy(s, key), key)
    ensures forall k :: WithKey(SortBy(s, key), key, k) == WithKey(s, key, k)
  {
    SortByPermutes(s, key);
    SortBySorted(s, key);
    forall k ensures WithKey(SortBy(s, key), key, k) == WithKey(s, key, k) {
      SortByStable(s, key, k);
    }
  }

  lemma {:induction false} SortByPermutes<T>(s: seq<T>, key: T -> Key)
    ensures multiset(SortBy(s, key)) == multiset(s)
    ensures |SortBy(s, key)| == |s|
    decreases |s|
  {
    if s != [] {
      SortByPermutes(s[1..], key);
      InsertPermutes(s[0], SortBy(s[1..], key), key);
      assert s == [s[0]] + s[1..];
      assert |SortBy(s, key)| == |multiset(SortBy(s, key))|;
    }
  }

  lemma {:induction false} SortBySorted<T>(s: seq<T>, key: T -> Key)
    ensures SortedBy(SortBy(s, key), key)
    decreases |s|
  {
    if s != [] {
      SortBySorted(s[1..], key);
      InsertSorted(s[0], SortBy(s[1..], key), key);
    }
  }

  lemma {:induction false} SortByStable<T>(s: seq<T>, key: T -> Key, k: Key)
    ensures WithKey(SortBy(s, key), key, k) == WithKey(s, key, k)
    decreases |s|
  {
    if s != [] {
      SortByStable(s[1..], key, k);
      InsertWithKey(s[0], SortBy(s[1..], key), key, k);
    }
  }
}
