/** Small building blocks shared by every module: an Option type, Python's
    `int()` on a float, and the string operations the program relies on
    (substring test, ASCII lower-casing, suffix test, `str.replace`,
    decimal printing of a counter). */
module Common {

  datatype Option<+T> = None | Some(value: T) {
    /** `dict.get(key, default)` once the lookup has produced this Option. */
    function GetOr(default: T): T {
      match this
      case Some(v) => v
      case None => default
    }
  }

  /** A positive integer: the pixel size of an opened image. */
  type Pos = n: int | n > 0 witness 1

  /** Python's `int(x)` for a float `x`: truncation toward zero. */
  function Trunc(r: real): int {
    if r >= 0.0 then r.Floor else -((-r).Floor)
  }

  /** `int()` drops the fractional part: the result lies within one of its
      argument, on the side of zero. */
  lemma TruncBounds(r: real)
    ensures r >= 0.0 ==> Trunc(r) as real <= r < Trunc(r) as real + 1.0
    ensures r < 0.0 ==> Trunc(r) as real - 1.0 < r <= Trunc(r) as real
    ensures r > -1.0 <==> Trunc(r) >= 0
  {
  }

  /** `int()` of a float that already holds an integer leaves it unchanged. */
  lemma TruncOfInt(n: int)
    ensures Trunc(n as real) == n
  {
  }

  /** Python's `a // b` for a non-zero divisor: the quotient rounded down,
      also for a negative divisor (Dafny's `/` keeps the remainder
      non-negative instead). */
  function FloorDiv(a: int, b: int): int
    requires b != 0
  {
    if b > 0 then a / b else (-a) / (-b)
  }

  /** The floored quotient leaves a remainder that has the divisor's sign
      and is smaller than the divisor in size. */
  lemma FloorDivBounds(a: int, b: int)
    requires b != 0
    ensures b > 0 ==> b * FloorDiv(a, b) <= a < b * FloorDiv(a, b) + b
    ensures b < 0 ==> b * FloorDiv(a, b) + b < a <= b * FloorDiv(a, b)
  {
    if b < 0 {
      var q := (-a) / (-b);
      assert -a == (-b) * q + (-a) % (-b);
      assert b * q == -((-b) * q);
    }
  }

  /** The product of two non-negative reals is non-negative. */
  lemma MulNonneg(a: real, b: real)
    requires 0.0 <= a && 0.0 <= b
    ensures 0.0 <= a * b
  {
  }

  /** Scaling by a non-negative factor keeps the order. */
  lemma MulMonotone(a: real, b: real, c: real)
    requires 0.0 <= a && b <= c
    ensures a * b <= a * c
  {
    MulNonneg(a, c - b);
    assert a * (c - b) == a * c - a * b;
  }

  /** Python's `t in s` for strings: `t` occurs in `s` as a contiguous substring. */
  predicate Contains(s: string, t: string)
    decreases |s|
  {
    if |t| > |s| then false
    else if s[..|t|] == t then true
    else Contains(s[1..], t)
  }

  /** `t` occurs in `s` starting at offset `i`. */
  predicate OccursAt(s: string, t: string, i: int) {
    0 <= i <= |s| - |t| && s[i..i + |t|] == t
  }

  /** `Contains` is the usual "occurs at some offset" relation. */
  lemma {:induction false} ContainsAt(s: string, t: string)
    ensures Contains(s, t) <==> exists i :: OccursAt(s, t, i)
    decreases |s|
  {
    if |t| > |s| {
    } else if s[..|t|] == t {
      assert OccursAt(s, t, 0);
    } else {
      ContainsAt(s[1..], t);
      if Contains(s, t) {
        var i :| OccursAt(s[1..], t, i);
        assert s[i + 1..i + 1 + |t|] == s[1..][i..i + |t|];
        assert OccursAt(s, t, i + 1);
      }
      if exists i :: OccursAt(s, t, i) {
        var i :| OccursAt(s, t, i);
        assert i != 0;
        assert s[1..][i - 1..i - 1 + |t|] == s[i..i + |t|];
        assert OccursAt(s[1..], t, i - 1);
      }
    }
  }

  /** A string occurs in any string that contains it at a known offset. */
  lemma ContainsWitness(s: string, t: string, i: int)
    requires OccursAt(s, t, i)
    ensures Contains(s, t)
  {
    ContainsAt(s, t);
  }

  /** Occurrence is transitive: a substring of a substring is a substring. */
  lemma ContainsTransitive(s: string, t: string, u: string)
    requires Contains(s, t) && Contains(t, u)
    ensures Contains(s, u)
  {
    ContainsAt(s, t);
    ContainsAt(t, u);
    var i :| OccursAt(s, t, i);
    var j :| OccursAt(t, u, j);
    var w := s[i + j..i + j + |u|];
    forall k | 0 <= k < |u| ensures w[k] == u[k] {
      assert w[k] == s[i..i + |t|][j + k] == t[j + k] == t[j..j + |u|][k];
    }
    assert w == u;
    ContainsWitness(s, u, i + j);
  }

  /** A string contains each of its prefixes and suffixes. */
  lemma ContainsParts(a: string, b: string)
    ensures Contains(a + b, a) && Contains(a + b, b)
  {
    assert (a + b)[0..0 + |a|] == a;
    ContainsWitness(a + b, a, 0);
    assert (a + b)[|a|..|a| + |b|] == b;
    ContainsWitness(a + b, b, |a|);
  }

  function LowerChar(c: char): char {
    if 'A' <= c <= 'Z' then (c as int + 32) as char else c
  }

  /** Python's `str.lower()`, restricted to the ASCII letters. */
  function Lower(s: string): (r: string)
    ensures |r| == |s|
    ensures forall i :: 0 <= i < |s| ==> r[i] == LowerChar(s[i])
  {
    seq(|s|, i requires 0 <= i < |s| => LowerChar(s[i]))
  }

  /** Python's `s.endswith(suffix)`. */
  predicate EndsWith(s: string, suffix: string) {
    |suffix| <= |s| && s[|s| - |suffix|..] == suffix
  }

  /** Python's `s.replace(pat, rep)` for a non-empty pattern: every occurrence,
      found left to right without overlap, is replaced. */
  function ReplaceAll(s: string, pat: string, rep: string): string
    requires |pat| > 0
    decreases |s|
  {
    if |s| < |pat| then s
    else if s[..|pat|] == pat then rep + ReplaceAll(s[|pat|..], pat, rep)
    else [s[0]] + ReplaceAll(s[1..], pat, rep)
  }

  /** A string without the pattern comes back unchanged, and replacing by
      something no longer than the pattern never lengthens a string. */
  lemma {:induction false} ReplaceAllSpec(s: string, pat: string, rep: string)
    requires |pat| > 0
    ensures !Contains(s, pat) ==> ReplaceAll(s, pat, rep) == s
    ensures |rep| <= |pat| ==> |ReplaceAll(s, pat, rep)| <= |s|
    decreases |s|
  {
    if |s| >= |pat| {
      if s[..|pat|] == pat {
        ReplaceAllSpec(s[|pat|..], pat, rep);
      } else {
        ReplaceAllSpec(s[1..], pat, rep);
      }
    }
  }

  /** `os.path.join(directory, name)` for a relative `name`. */
  function JoinPath(directory: string, name: string): string {
    if directory == [] || EndsWith(directory, "/") then directory + name
    else directory + "/" + name
  }

  function DigitChar(d: nat): char
    requires d < 10
  {
    "0123456789"[d]
  }

  /** `str(n)` for a natural number. */
  function NatToString(n: nat): (r: string)
    ensures |r| >= 1
    decreases n
  {
    if n < 10 then [DigitChar(n)] else NatToString(n / 10) + [DigitChar(n % 10)]
  }

  /** Distinct numbers print differently. */
  lemma {:induction false} NatToStringInjective(a: nat, b: nat)
    requires NatToString(a) == NatToString(b)
    ensures a == b
    decreases a
  {
    if a < 10 && b < 10 {
      assert DigitChar(a) == NatToString(a)[0];
    } else if a >= 10 && b >= 10 {
      var sa, sb := NatToString(a), NatToString(b);
      assert sa[|sa| - 1] == DigitChar(a % 10);
      assert sb[|sb| - 1] == DigitChar(b % 10);
      assert a % 10 == b % 10;
      assert NatToString(a / 10) == sa[..|sa| - 1];
      assert NatToString(b / 10) == sb[..|sb| - 1];
      NatToStringInjective(a / 10, b / 10);
    }
  }

  /** No value occurs twice (the keys of a Python dict, listed in order). */
  predicate NoDup<T(==)>(s: seq<T>) {
    forall i, j :: 0 <= i < j < |s| ==> s[i] != s[j]
  }

  function Min(a: int, b: int): int {
    if a <= b then a else b
  }

  /** Python's `s.split(c)[0]`: the text before the first `c`, or all of `s`. */
  function TakeUntil(s: string, c: char): (r: string)
    ensures |r| <= |s| && r == s[..|r|]
    ensures c !in r
    ensures c in s ==> |r| < |s| && s[|r|] == c
    ensures c !in s ==> r == s
  {
    if s == [] then []
    else if s[0] == c then []
    else [s[0]] + TakeUntil(s[1..], c)
  }

  /** A list comprehension `[x for x in s if p(x)]`: the elements of `s`
      that satisfy `p`, in their order. */
  function Filter<T(!new)>(s: seq<T>, p: T -> bool): (r: seq<T>)
    ensures |r| <= |s|
    decreases |s|
  {
    if s == [] then [] else (if p(s[0]) then [s[0]] else []) + Filter(s[1..], p)
  }

  /** The filter keeps exactly the elements that satisfy the predicate. */
  lemma {:induction false} FilterMembers<T(!new)>(s: seq<T>, p: T -> bool)
    ensures forall x :: x in Filter(s, p) <==> x in s && p(x)
    decreases |s|
  {
    if s != [] {
      FilterMembers(s[1..], p);
      assert forall x :: x in s <==> x == s[0] || x in s[1..];
    }
  }

  lemma {:induction false} FilterAppend<T(!new)>(a: seq<T>, b: seq<T>, p: T -> bool)
    ensures Filter(a + b, p) == Filter(a, p) + Filter(b, p)
    decreases |a|
  {
    if a != [] {
      assert (a + b)[1..] == a[1..] + b;
      FilterAppend(a[1..], b, p);
    } else {
      assert a + b == b;
    }
  }

  /** The first element kept by a filter is the first element of the list
      that satisfies the predicate. */
  lemma {:induction false} FilterHead<T(!new)>(s: seq<T>, p: T -> bool)
    requires Filter(s, p) != []
    ensures exists k :: 0 <= k < |s| && p(s[k]) && Filter(s, p)[0] == s[k] && forall j :: 0 <= j < k ==> !p(s[j])
    decreases |s|
  {
    if !p(s[0]) {
      FilterHead(s[1..], p);
      var k :| 0 <= k < |s[1..]| && p(s[1..][k]) && Filter(s[1..], p)[0] == s[1..][k]
               && forall j :: 0 <= j < k ==> !p(s[1..][j]);
      assert forall j :: 0 < j < k + 1 ==> s[j] == s[1..][j - 1];
    }
  }

  /** Nothing passes a filter when no element satisfies the predicate. */
  lemma {:induction false} FilterNone<T(!new)>(s: seq<T>, p: T -> bool)
    requires forall x :: x in s ==> !p(x)
    ensures Filter(s, p) == []
    decreases |s|
  {
    if s != [] {
      FilterNone(s[1..], p);
    }
  }

  /** Filtering by a predicate and by its negation splits a list between the
      two results. */
  lemma {:induction false} FilterPartition<T(!new)>(s: seq<T>, p: T -> bool, q: T -> bool)
    requires forall x :: q(x) == !p(x)
    ensures multiset(Filter(s, p)) + multiset(Filter(s, q)) == multiset(s)
    decreases |s|
  {
    if s != [] {
      FilterPartition(s[1..], p, q);
      var head := multiset{s[0]};
      var a, b := multiset(Filter(s[1..], p)), multiset(Filter(s[1..], q));
      assert multiset(s) == head + multiset(s[1..]) by {
        assert s == [s[0]] + s[1..];
      }
      UnionShift(head, a, b, multiset(s[1..]));
      if p(s[0]) {
        assert Filter(s, p) == [s[0]] + Filter(s[1..], p);
        assert multiset(Filter(s, p)) == head + a;
        assert Filter(s, q) == Filter(s[1..], q);
      } else {
        assert Filter(s, p) == Filter(s[1..], p);
        assert Filter(s, q) == [s[0]] + Filter(s[1..], q);
        assert multiset(Filter(s, q)) == head + b;
      }
    }
  }

  lemma UnionShift<T>(x: multiset<T>, a: multiset<T>, b: multiset<T>, rest: multiset<T>)
    requires a + b == rest
    ensures (x + a) + b == x + rest && a + (x + b) == x + rest
  {
  }

  /** Filtering a list without repetitions gives one without repetitions. */
  lemma {:induction false} FilterNoDup<T(!new)>(s: seq<T>, p: T -> bool)
    requires NoDup(s)
    ensures NoDup(Filter(s, p))
    decreases |s|
  {
    if s != [] {
      var t := s[1..];
      assert NoDup(t) by {
        forall i, j | 0 <= i < j < |t| ensures t[i] != t[j] {
          assert t[i] == s[i + 1] && t[j] == s[j + 1];
        }
      }
      FilterNoDup(t, p);
      FilterMembers(t, p);
      assert s[0] !in t;
      var r := Filter(t, p);
      if p(s[0]) {
        var q := [s[0]] + r;
        forall i, j | 0 <= i < j < |q| ensures q[i] != q[j] {
          if i == 0 {
            assert q[j] == r[j - 1] && r[j - 1] in r;
          } else {
            assert q[i] == r[i - 1] && q[j] == r[j - 1];
          }
        }
      } else {
        assert [] + r == r;
      }
    }
  }

  /** The set of the elements of a sequence (Python's `set(list)`). */
  function Elements<T>(s: seq<T>): set<T> {
    set x | x in s
  }

  /** A list has at least as many entries as distinct values, and exactly as
      many precisely when no value repeats. */
  lemma {:induction false} ElementsCard<T>(s: seq<T>)
    ensures |Elements(s)| <= |s|
    ensures |Elements(s)| == |s| <==> NoDup(s)
    decreases |s|
  {
    if s != [] {
      var t := s[1..];
      ElementsCard(t);
      assert Elements(s) == {s[0]} + Elements(t) by {
        assert forall x :: x in s <==> x == s[0] || x in t;
      }
      if s[0] in t {
        assert Elements(s) == Elements(t);
        var j :| 0 <= j < |t| && t[j] == s[0];
        assert s[0] == s[j + 1];
        assert !NoDup(s);
      } else {
        assert |Elements(s)| == 1 + |Elements(t)|;
        if NoDup(t) {
          forall i, j | 0 <= i < j < |s| ensures s[i] != s[j] {
            if i == 0 {
              assert s[j] == t[j - 1];
            } else {
              assert s[i] == t[i - 1] && s[j] == t[j - 1];
            }
          }
        } else {
          var i, j :| 0 <= i < j < |t| && t[i] == t[j];
          assert s[i + 1] == s[j + 1];
        }
      }
    }
  }

  /** In a list without repetitions every value occurs once or not at all. */
  lemma {:induction false} NoDupMultiplicity<T>(s: seq<T>, x: T)
    requires NoDup(s)
    ensures multiset(s)[x] == if x in s then 1 else 0
    decreases |s|
  {
    if s != [] {
      var t := s[1..];
      assert NoDup(t) by {
        forall i, j | 0 <= i < j < |t| ensures t[i] != t[j] {
          assert t[i] == s[i + 1] && t[j] == s[j + 1];
        }
      }
      NoDupMultiplicity(t, x);
      assert s == [s[0]] + t;
      if s[0] in t {
        var j :| 0 <= j < |t| && t[j] == s[0];
        assert s[j + 1] == s[0];
      }
    }
  }

  /** Two lists without repetitions holding the same values are permutations
      of each other. */
  lemma SameElementsPermutation<T>(a: seq<T>, b: seq<T>)
    requires NoDup(a) && NoDup(b) && Elements(a) == Elements(b)
    ensures multiset(a) == multiset(b)
  {
    forall x ensures multiset(a)[x] == multiset(b)[x] {
      NoDupMultiplicity(a, x);
      NoDupMultiplicity(b, x);
      assert x in a <==> x in Elements(a);
      assert x in b <==> x in Elements(b);
    }
  }

  lemma AppendAssoc<T>(a: seq<T>, b: seq<T>, c: seq<T>)
    ensures a + b + c == a + (b + c)
  {
  }

  /** The dictionary `{k: f(k) for k in keys[:n]}`, built the way a loop
      assigns. */
  function Tabulate<K, V>(keys: seq<K>, f: K -> V, n: nat): map<K, V>
    requires n <= |keys|
  {
    if n == 0 then map[] else Tabulate(keys, f, n - 1)[keys[n - 1] := f(keys[n - 1])]
  }

  /** The dictionary holds exactly the first `n` keys, each mapped by `f`. */
  lemma {:induction false} TabulateSpec<K, V>(keys: seq<K>, f: K -> V, n: nat)
    requires n <= |keys|
    ensures forall k :: k in Tabulate(keys, f, n) <==> k in keys[..n]
    ensures forall k :: k in Tabulate(keys, f, n) ==> Tabulate(keys, f, n)[k] == f(k)
    decreases n
  {
    if n > 0 {
      TabulateSpec(keys, f, n - 1);
      assert keys[..n] == keys[..n - 1] + [keys[n - 1]];
    }
  }

  /** `[f(k, s[k]) for k in range(n)]`, built the way a loop appends. */
  function Indexed<A, B>(f: (nat, A) -> B, s: seq<A>, n: nat): seq<B>
    requires n <= |s|
  {
    if n == 0 then [] else Indexed(f, s, n - 1) + [f(n - 1, s[n - 1])]
  }

  /** Entry `k` of the list is `f(k, s[k])`. */
  lemma {:induction false} IndexedSpec<A, B>(f: (nat, A) -> B, s: seq<A>, n: nat)
    requires n <= |s|
    ensures |Indexed(f, s, n)| == n
    ensures forall k :: 0 <= k < n ==> Indexed(f, s, n)[k] == f(k, s[k])
    decreases n
  {
    if n > 0 {
      IndexedSpec(f, s, n - 1);
    }
  }

  /** A subset has at most as many elements as its superset. */
  lemma {:induction false} SubsetCard<T>(a: set<T>, b: set<T>)
    requires a <= b
    ensures |a| <= |b|
    decreases |b|
  {
    if a != {} {
      var x :| x in a;
      SubsetCard(a - {x}, b - {x});
    }
  }

  /** A subset as large as its superset is the whole superset. */
  lemma SubsetEqual<T>(a: set<T>, b: set<T>)
    requires a <= b && |a| == |b|
    ensures a == b
  {
    forall x | x in b ensures x in a {
      if x !in a {
        SubsetCard(a, b - {x});
        assert false;
      }
    }
  }
}
