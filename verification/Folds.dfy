// Sums, filters and maps over sequences, written to match loops that append,
// with the permutation facts the schedule-independence proofs rest on.
module Folds {

  function SumBy<T>(s: seq<T>, f: T -> int): int {
    if s == [] then 0 else SumBy(s[..|s| - 1], f) + f(s[|s| - 1])
  }

  function Filter<T>(s: seq<T>, p: T -> bool): (r: seq<T>)
    ensures |r| <= |s|
    ensures forall x | x in r :: x in s && p(x)
    ensures forall x | x in s && p(x) :: x in r
  {
    if s == [] then []
    else
      var rest := Filter(s[..|s| - 1], p);
      var last := s[|s| - 1];
      assert s == s[..|s| - 1] + [last];
      if p(last) then rest + [last] else rest
  }

  function Apply<T, U>(s: seq<T>, f: T -> U): (r: seq<U>)
    ensures |r| == |s|
    ensures forall i :: 0 <= i < |s| ==> r[i] == f(s[i])
  {
    if s == [] then [] else Apply(s[..|s| - 1], f) + [f(s[|s| - 1])]
  }

  ghost predicate Permutes<T>(a: seq<T>, b: seq<T>) {
    multiset(a) == multiset(b)
  }

  function Without<T>(s: seq<T>, i: nat): seq<T>
    requires i < |s|
  {
    s[..i] + s[i + 1..]
  }

  lemma SumAppend<T>(s: seq<T>, x: T, f: T -> int)
    ensures SumBy(s + [x], f) == SumBy(s, f) + f(x)
  {
    assert (s + [x])[..|s|] == s;
  }

  lemma {:induction false} SumConcat<T>(a: seq<T>, b: seq<T>, f: T -> int)
    ensures SumBy(a + b, f) == SumBy(a, f) + SumBy(b, f)
  {
    if b == [] {
      assert a + b == a;
    } else {
      var b' := b[..|b| - 1];
      assert (a + b)[..|a + b| - 1] == a + b';
      SumConcat(a, b', f);
    }
  }

  lemma SumWithout<T>(s: seq<T>, i: nat, f: T -> int)
    requires i < |s|
    ensures SumBy(s, f) == SumBy(Without(s, i), f) + f(s[i])
  {
    hide SumBy;
    var a, x, b := s[..i], s[i], s[i + 1..];
    assert s == (a + [x]) + b;
    SumConcat(a + [x], b, f);
    SumAppend(a, x, f);
    SumConcat(a, b, f);
  }

  lemma SumUpdate<T>(s: seq<T>, i: nat, x: T, f: T -> int)
    requires i < |s|
    ensures SumBy(s[i := x], f) == SumBy(s, f) - f(s[i]) + f(x)
  {
    hide SumBy;
    SumWithout(s, i, f);
    SumWithout(s[i := x], i, f);
    assert Without(s[i := x], i) == Without(s, i);
  }

  lemma {:induction false} SumMono<T>(s: seq<T>, f: T -> int, g: T -> int)
    requires forall x :: x in s ==> f(x) <= g(x)
    ensures SumBy(s, f) <= SumBy(s, g)
  {
    if s != [] {
      SumMono(s[..|s| - 1], f, g);
    }
  }

  // Pointwise-bounded sums that agree agree pointwise.
  lemma {:induction false} SumTight<T>(s: seq<T>, f: T -> int, g: T -> int)
    requires forall x :: x in s ==> f(x) <= g(x)
    ensures SumBy(s, f) == SumBy(s, g) <==> forall x :: x in s ==> f(x) == g(x)
  {
    if s != [] {
      var s', last := s[..|s| - 1], s[|s| - 1];
      assert s == s' + [last];
      SumMono(s', f, g);
      SumTight(s', f, g);
    }
  }

  lemma {:induction false} SumBetween<T>(s: seq<T>, f: T -> int, lo: int, hi: int)
    requires forall x :: x in s ==> lo <= f(x) <= hi
    ensures lo * |s| <= SumBy(s, f) <= hi * |s|
  {
    if s != [] {
      SumBetween(s[..|s| - 1], f, lo, hi);
    }
  }

  // A zero sum of non-negative terms has only zero terms.
  lemma SumZero<T>(s: seq<T>, f: T -> int, i: nat)
    requires i < |s| && (forall x :: x in s ==> f(x) >= 0) && SumBy(s, f) == 0
    ensures f(s[i]) == 0
  {
    SumWithout(s, i, f);
    var rest := Without(s, i);
    forall x | x in rest ensures f(x) >= 0 {
      assert x in s;
    }
    SumNonNegative(rest, f);
  }

  lemma {:induction false} SumNonNegative<T>(s: seq<T>, f: T -> int)
    requires forall x :: x in s ==> f(x) >= 0
    ensures SumBy(s, f) >= 0
  {
    if s != [] {
      SumNonNegative(s[..|s| - 1], f);
    }
  }

  lemma {:induction false} SumAdd<T>(s: seq<T>, f: T -> int, g: T -> int, h: T -> int)
    requires forall x :: x in s ==> h(x) == f(x) + g(x)
    ensures SumBy(s, h) == SumBy(s, f) + SumBy(s, g)
  {
    if s != [] {
      SumAdd(s[..|s| - 1], f, g, h);
    }
  }

  lemma {:induction false} SumApply<T, U>(s: seq<T>, f: T -> U, g: U -> int, h: T -> int)
    requires forall x :: x in s ==> h(x) == g(f(x))
    ensures SumBy(Apply(s, f), g) == SumBy(s, h)
  {
    if s != [] {
      SumApply(s[..|s| - 1], f, g, h);
      SumAppend(Apply(s[..|s| - 1], f), f(s[|s| - 1]), g);
    }
  }

  lemma {:induction false} SumFilter<T>(s: seq<T>, p: T -> bool, f: T -> int, h: T -> int)
    requires forall x :: x in s ==> h(x) == if p(x) then f(x) else 0
    ensures SumBy(Filter(s, p), f) == SumBy(s, h)
  {
    if s != [] {
      var s', last := s[..|s| - 1], s[|s| - 1];
      SumFilter(s', p, f, h);
      if p(last) { SumAppend(Filter(s', p), last, f); }
    }
  }

  lemma WithoutCounts<T>(s: seq<T>, i: nat)
    requires i < |s|
    ensures multiset(Without(s, i)) == multiset(s) - multiset{s[i]}
  {
    assert s == s[..i] + [s[i]] + s[i + 1..];
  }

  lemma InPermutation<T>(a: seq<T>, b: seq<T>, x: T)
    requires Permutes(a, b)
    ensures x in a <==> x in b
  {
    assert x in a <==> x in multiset(a);
    assert x in b <==> x in multiset(b);
  }

  // The position in b of the last element of a, when b permutes a.
  lemma LastPosition<T>(a: seq<T>, b: seq<T>) returns (j: nat)
    requires a != [] && Permutes(a, b)
    ensures j < |b| && b[j] == a[|a| - 1]
    ensures Permutes(a[..|a| - 1], Without(b, j))
  {
    InPermutation(a, b, a[|a| - 1]);
    j :| j < |b| && b[j] == a[|a| - 1];
    WithoutCounts(b, j);
    WithoutCounts(a, |a| - 1);
    assert Without(a, |a| - 1) == a[..|a| - 1];
  }

  lemma PermutationLength<T>(a: seq<T>, b: seq<T>)
    requires Permutes(a, b)
    ensures |a| == |b|
  {
    assert |multiset(a)| == |a| && |multiset(b)| == |b|;
  }

  lemma {:induction false} SumPermutation<T>(a: seq<T>, b: seq<T>, f: T -> int)
    requires Permutes(a, b)
    ensures SumBy(a, f) == SumBy(b, f)
    decreases |a|
  {
    PermutationLength(a, b);
    if a != [] {
      var j := LastPosition(a, b);
      SumPermutation(a[..|a| - 1], Without(b, j), f);
      SumWithout(b, j, f);
    }
  }

  lemma {:induction false} FilterCounts<T>(s: seq<T>, p: T -> bool, x: T)
    ensures multiset(Filter(s, p))[x] == if p(x) then multiset(s)[x] else 0
  {
    if s != [] {
      FilterCounts(s[..|s| - 1], p, x);
      assert s == s[..|s| - 1] + [s[|s| - 1]];
    }
  }

  lemma FilterPermutation<T>(a: seq<T>, b: seq<T>, p: T -> bool)
    requires Permutes(a, b)
    ensures Permutes(Filter(a, p), Filter(b, p))
  {
    var fa, fb := multiset(Filter(a, p)), multiset(Filter(b, p));
    forall x | x in fa + fb ensures fa[x] == fb[x] {
      FilterCounts(a, p, x);
      FilterCounts(b, p, x);
    }
  }

  lemma FilterAppend<T>(s: seq<T>, x: T, p: T -> bool)
    ensures Filter(s + [x], p) == Filter(s, p) + (if p(x) then [x] else [])
  {
    assert (s + [x])[..|s|] == s;
  }

  lemma ApplyAppend<T, U>(s: seq<T>, x: T, f: T -> U)
    ensures Apply(s + [x], f) == Apply(s, f) + [f(x)]
  {
  }

  lemma ApplyWithout<T, U>(s: seq<T>, i: nat, f: T -> U)
    requires i < |s|
    ensures Apply(Without(s, i), f) == Without(Apply(s, f), i)
  {
    hide Apply;
    var u, v := Apply(Without(s, i), f), Without(Apply(s, f), i);
    forall k | 0 <= k < |u| ensures u[k] == v[k] {
      assert u[k] == f(s[if k < i then k else k + 1]);
    }
  }

  lemma ApplyCounts<T, U>(s: seq<T>, f: T -> U, i: nat)
    requires i < |s|
    ensures multiset(Apply(s, f)) == multiset(Apply(Without(s, i), f)) + multiset{f(s[i])}
  {
    hide Apply, Without;
    WithoutCounts(Apply(s, f), i);
    ApplyWithout(s, i, f);
    assert f(s[i]) == Apply(s, f)[i];
  }

  lemma {:induction false} ApplyPermutation<T, U>(a: seq<T>, b: seq<T>, f: T -> U)
    requires Permutes(a, b)
    ensures Permutes(Apply(a, f), Apply(b, f))
    decreases |a|
  {
    PermutationLength(a, b);
    if a != [] {
      hide Apply, Without;
      var j := LastPosition(a, b);
      ApplyPermutation(a[..|a| - 1], Without(b, j), f);
      WithoutLast(a);
      ApplyCounts(a, f, |a| - 1);
      ApplyCounts(b, f, j);
    } else {
      assert b == [];
    }
  }

  lemma WithoutLast<T>(a: seq<T>)
    requires a != []
    ensures Without(a, |a| - 1) == a[..|a| - 1]
  {
  }

  // The number of elements that satisfy p, as a sum of ones.
  function One<T>(p: T -> bool): T -> int {
    x => if p(x) then 1 else 0
  }

  lemma {:induction false} FilterLength<T>(s: seq<T>, p: T -> bool)
    ensures |Filter(s, p)| == SumBy(s, One(p))
  {
    if s != [] {
      FilterLength(s[..|s| - 1], p);
    }
  }

  // ----- grouping by a key: a sum over all is the sum of the groups' sums

  function KeyIs<T, K(==)>(keyOf: T -> K, k: K): T -> bool {
    x => keyOf(x) == k
  }

  function Group<T, K(==)>(s: seq<T>, keyOf: T -> K, k: K): seq<T> {
    Filter(s, KeyIs(keyOf, k))
  }

  function GroupSum<T, K(==)>(s: seq<T>, keyOf: T -> K, f: T -> int): K -> int {
    k => SumBy(Group(s, keyOf, k), f)
  }

  ghost predicate Distinct<K>(keys: seq<K>) {
    forall i, j :: 0 <= i < j < |keys| ==> keys[i] != keys[j]
  }

  lemma {:induction false} DistinctMultiplicity<K>(s: seq<K>, x: K)
    requires Distinct(s)
    ensures multiset(s)[x] <= 1
  {
    if s != [] {
      var front, last := s[..|s| - 1], s[|s| - 1];
      assert s == front + [last];
      DistinctMultiplicity(front, x);
      assert last !in multiset(front);
    }
  }

  lemma DistinctPermutation<K>(a: seq<K>, b: seq<K>)
    requires Distinct(a) && Permutes(a, b)
    ensures Distinct(b)
  {
    forall i, j | 0 <= i < j < |b| ensures b[i] != b[j] {
      DistinctMultiplicity(a, b[i]);
      WithoutCounts(b, i);
      assert Without(b, i)[j - 1] == b[j];
      assert b[j] in multiset(Without(b, i));
    }
  }

  lemma AllVisited<K>(keys: set<K>, visited: set<K>)
    requires visited <= keys && keys - visited == {}
    ensures visited == keys
  {
    forall k | k in keys ensures k in visited {
      assert k in keys - visited || k in visited;
    }
  }

  // A finite set, listed in some order.
  lemma {:induction false} Enumerate<K>(s: set<K>) returns (keys: seq<K>)
    ensures Distinct(keys) && |keys| == |s|
    ensures forall k | k in keys :: k in s
    ensures forall k | k in s :: k in keys
  {
    if s == {} {
      keys := [];
    } else {
      var k :| k in s;
      var rest := Enumerate(s - {k});
      keys := rest + [k];
    }
  }

  lemma GroupAppend<T, K>(s: seq<T>, x: T, keyOf: T -> K, k: K)
    ensures Group(s + [x], keyOf, k) == Group(s, keyOf, k) + (if keyOf(x) == k then [x] else [])
  {
    FilterAppend(s, x, KeyIs(keyOf, k));
  }

  // Bumping the value at one of the distinct keys bumps the sum over the keys.
  lemma {:induction false} SumOverKeysBump<K>(keys: seq<K>, f: K -> int, g: K -> int, k: K, d: int)
    requires Distinct(keys)
    requires forall x :: x in keys ==> g(x) == f(x) + (if x == k then d else 0)
    ensures SumBy(keys, g) == SumBy(keys, f) + (if k in keys then d else 0)
  {
    if keys != [] {
      var front, last := keys[..|keys| - 1], keys[|keys| - 1];
      assert keys == front + [last];
      SumOverKeysBump(front, f, g, k, d);
    }
  }

  lemma {:induction false} PartitionSum<T, K>(s: seq<T>, keys: seq<K>, keyOf: T -> K, f: T -> int)
    requires Distinct(keys)
    requires forall x :: x in s ==> keyOf(x) in keys
    ensures SumBy(s, f) == SumBy(keys, GroupSum(s, keyOf, f))
  {
    if s == [] {
      forall k | k in keys ensures GroupSum(s, keyOf, f)(k) == 0 { }
      SumBetween(keys, GroupSum(s, keyOf, f), 0, 0);
    } else {
      var s', x := s[..|s| - 1], s[|s| - 1];
      assert s == s' + [x];
      PartitionSum(s', keys, keyOf, f);
      forall k | k in keys
        ensures GroupSum(s, keyOf, f)(k) == GroupSum(s', keyOf, f)(k) + (if k == keyOf(x) then f(x) else 0)
      {
        GroupAppend(s', x, keyOf, k);
        if keyOf(x) == k { SumAppend(Group(s', keyOf, k), x, f); }
      }
      SumOverKeysBump(keys, GroupSum(s', keyOf, f), GroupSum(s, keyOf, f), keyOf(x), f(x));
    }
  }
}
