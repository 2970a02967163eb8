// sort.Slice as its contract: the result is ordered by the comparator and
// holds the same elements. The algorithm below is one of many that meet it;
// the uniqueness lemmas show that callers cannot tell which one ran.
module Sorting {
  import opened Folds

  ghost predicate Ordered<T>(s: seq<T>, less: (T, T) -> bool) {
    forall i, j :: 0 <= i < j < |s| ==> !less(s[j], s[i])
  }

  ghost predicate StrictlyOrdered<T>(s: seq<T>, less: (T, T) -> bool) {
    forall i, j :: 0 <= i < j < |s| ==> less(s[i], s[j])
  }

  // What a comparator must satisfy for sorting to make sense.
  ghost predicate Comparator<T(!new)>(less: (T, T) -> bool) {
    && (forall a, b :: less(a, b) ==> !less(b, a))
    && (forall a, b, c :: !less(b, a) && !less(c, b) ==> !less(c, a))
  }

  method SortSlice<T(!new)>(s: seq<T>, less: (T, T) -> bool) returns (r: seq<T>)
    requires Comparator(less)
    ensures Ordered(r, less) && Permutes(r, s)
  {
    r := [];
    for i := 0 to |s|
      invariant Ordered(r, less) && Permutes(r, s[..i])
    {
      assert s[..i + 1] == s[..i] + [s[i]];
      r := InsertInto(r, s[i], less);
    }
    assert s[..|s|] == s;
  }

  method InsertInto<T(!new)>(s: seq<T>, x: T, less: (T, T) -> bool) returns (r: seq<T>)
    requires Comparator(less) && Ordered(s, less)
    ensures Ordered(r, less) && Permutes(r, s + [x])
  {
    var k := |s|;
    while k > 0 && less(x, s[k - 1])
      invariant 0 <= k <= |s|
      invariant forall m :: k <= m < |s| ==> less(x, s[m])
    {
      k := k - 1;
    }
    r := s[..k] + [x] + s[k..];
    InsertedOrder(s, x, k, less);
    assert s == s[..k] + s[k..];
  }

  lemma InsertedOrder<T(!new)>(s: seq<T>, x: T, k: nat, less: (T, T) -> bool)
    requires Comparator(less) && Ordered(s, less) && k <= |s|
    requires k > 0 ==> !less(x, s[k - 1])
    requires forall m :: k <= m < |s| ==> less(x, s[m])
    ensures Ordered(s[..k] + [x] + s[k..], less)
  {
    var r := s[..k] + [x] + s[k..];
    forall m | 0 <= m < k ensures !less(x, s[m]) {
      if m < k - 1 { assert !less(s[k - 1], s[m]); }
    }
    forall i, j | 0 <= i < j < |r| ensures !less(r[j], r[i]) {
      assert r[i] == if i < k then s[i] else if i == k then x else s[i - 1];
      assert r[j] == if j < k then s[j] else if j == k then x else s[j - 1];
    }
  }

  // Sorting distinct elements that the comparator tells apart leaves no ties.
  lemma OrderedIsStrict<T>(s: seq<T>, r: seq<T>, less: (T, T) -> bool)
    requires Ordered(r, less) && Permutes(r, s) && Distinct(s)
    requires forall x, y | x in s && y in s :: x != y ==> less(x, y) || less(y, x)
    ensures StrictlyOrdered(r, less)
  {
    DistinctPermutation(s, r);
    forall i, j | 0 <= i < j < |r| ensures less(r[i], r[j]) {
      InPermutation(r, s, r[i]);
      InPermutation(r, s, r[j]);
    }
  }

  lemma NonemptyToo<T>(a: seq<T>, b: seq<T>)
    requires forall x | x in a :: x in b
    ensures a != [] ==> b != []
  {
    if a != [] {
      var x := a[0];
      assert x in a;
    }
  }

  // Two strictly ordered lists with the same elements are the same list.
  lemma {:induction false} StrictlyOrderedUnique<T>(a: seq<T>, b: seq<T>, less: (T, T) -> bool)
    requires forall x, y | x in a && y in a :: less(x, y) ==> !less(y, x)
    requires StrictlyOrdered(a, less) && StrictlyOrdered(b, less)
    requires (forall x | x in a :: x in b) && (forall x | x in b :: x in a)
    ensures a == b
  {
    if a == [] || b == [] {
      NonemptyToo(a, b);
      NonemptyToo(b, a);
    } else {
      assert a[0] in b && b[0] in a;
      var j :| 0 <= j < |b| && b[j] == a[0];
      var i :| 0 <= i < |a| && a[i] == b[0];
      assert a[0] == b[0];
      forall x | x in a[1..] ensures x in b[1..] {
        var m :| 0 <= m < |a[1..]| && a[1..][m] == x;
        assert less(a[0], a[m + 1]);
        assert x in b;
      }
      forall x | x in b[1..] ensures x in a[1..] {
        var m :| 0 <= m < |b[1..]| && b[1..][m] == x;
        assert less(b[0], b[m + 1]);
        assert x in a;
      }
      StrictlyOrderedUnique(a[1..], b[1..], less);
    }
  }

  // ----- durations

  predicate Shorter(a: int, b: int) {
    a < b
  }

  ghost predicate Ascending(s: seq<int>) {
    forall i, j :: 0 <= i <= j < |s| ==> s[i] <= s[j]
  }

  // The ascending arrangement of s.
  function Sort(s: seq<int>): (r: seq<int>)
    ensures Ascending(r) && Permutes(r, s) && |r| == |s|
  {
    if s == [] then []
    else
      var last := s[|s| - 1];
      assert s == s[..|s| - 1] + [last];
      Insert(last, Sort(s[..|s| - 1]))
  }

  function Insert(x: int, s: seq<int>): (r: seq<int>)
    requires Ascending(s)
    ensures Ascending(r) && |r| == |s| + 1
    ensures multiset(r) == multiset(s) + multiset{x}
    ensures s != [] ==> r[0] == if x <= s[0] then x else s[0]
  {
    if s == [] || x <= s[0] then [x] + s
    else
      var rest := Insert(x, s[1..]);
      assert s == [s[0]] + s[1..];
      [s[0]] + rest
  }

  // Sorting is a function of the elements alone.
  lemma {:induction false} AscendingUnique(a: seq<int>, b: seq<int>)
    requires Ascending(a) && Ascending(b) && Permutes(a, b)
    ensures a == b
    decreases |a|
  {
    PermutationLength(a, b);
    if a != [] {
      var n := |a| - 1;
      SameLast(a, b);
      FrontsPermute(a, b);
      AscendingUnique(a[..n], b[..n]);
      assert a == a[..n] + [a[n]] && b == b[..n] + [b[n]];
    }
  }

  lemma FrontsPermute(a: seq<int>, b: seq<int>)
    requires |a| == |b| > 0 && Permutes(a, b) && a[|a| - 1] == b[|b| - 1]
    ensures Permutes(a[..|a| - 1], b[..|b| - 1])
  {
    hide Without;
    WithoutCounts(a, |a| - 1);
    WithoutCounts(b, |b| - 1);
    WithoutLast(a);
    WithoutLast(b);
  }

  lemma SameLast(a: seq<int>, b: seq<int>)
    requires Ascending(a) && Ascending(b) && Permutes(a, b) && |a| == |b| > 0
    ensures a[|a| - 1] == b[|b| - 1]
  {
    InPermutation(a, b, a[|a| - 1]);
    InPermutation(a, b, b[|b| - 1]);
  }

  lemma SortUnique(s: seq<int>, r: seq<int>)
    requires Ordered(r, Shorter) && Permutes(r, s)
    ensures r == Sort(s)
  {
    assert Ascending(r) by {
      forall i, j | 0 <= i <= j < |r| ensures r[i] <= r[j] {
        if i < j { assert !Shorter(r[j], r[i]); }
      }
    }
    AscendingUnique(r, Sort(s));
  }

  lemma SortPermutation(a: seq<int>, b: seq<int>)
    requires Permutes(a, b)
    ensures Sort(a) == Sort(b)
  {
    AscendingUnique(Sort(a), Sort(b));
  }

  method SortDurations(s: seq<int>) returns (r: seq<int>)
    ensures r == Sort(s)
  {
    r := SortSlice(s, Shorter);
    SortUnique(s, r);
  }
}
