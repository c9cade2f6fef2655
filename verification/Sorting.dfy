/** Sorting by a comparison, standing for Go's sort.Sort and sort.Slice. */
module Sorting {

  /** less orders like "<" on some total order of keys: ties are allowed, cycles are not. */
  ghost predicate OrdersByKey<T(!new)>(less: (T, T) -> bool) {
    && (forall x, y :: less(x, y) ==> !less(y, x))
    && (forall x, y, z :: !less(y, x) && !less(z, y) ==> !less(z, x))
  }

  ghost predicate Sorted<T>(s: seq<T>, less: (T, T) -> bool) {
    forall i, j :: 0 <= i < j < |s| ==> !less(s[j], s[i])
  }

  /** Insertion sort. The library sorts are unstable; nothing below depends on the order of ties. */
  method SortBy<T(==, !new)>(xs: seq<T>, less: (T, T) -> bool) returns (r: seq<T>)
    requires OrdersByKey(less)
    ensures Sorted(r, less) && multiset(r) == multiset(xs) && |r| == |xs|
  {
    r := [];
    for i := 0 to |xs|
      invariant Sorted(r, less) && multiset(r) == multiset(xs[..i]) && |r| == i
    {
      r := Insert(r, xs[i], less);
      assert xs[..i + 1] == xs[..i] + [xs[i]];
    }
    assert xs[..|xs|] == xs;
  }

  method Insert<T(==, !new)>(s: seq<T>, x: T, less: (T, T) -> bool) returns (r: seq<T>)
    requires OrdersByKey(less) && Sorted(s, less)
    ensures Sorted(r, less) && multiset(r) == multiset(s) + multiset{x} && |r| == |s| + 1
  {
    var k := |s|;
    while k > 0 && less(x, s[k - 1])
      invariant 0 <= k <= |s|
      invariant forall j :: k <= j < |s| ==> less(x, s[j])
    {
      k := k - 1;
    }
    InsertKeepsSorted(s, x, k, less);
    assert s == s[..k] + s[k..];
    r := s[..k] + [x] + s[k..];
  }

  lemma InsertKeepsSorted<T(!new)>(r: seq<T>, x: T, k: nat, less: (T, T) -> bool)
    requires OrdersByKey(less) && Sorted(r, less) && k <= |r|
    requires forall j :: k <= j < |r| ==> less(x, r[j])
    requires k > 0 ==> !less(x, r[k - 1])
    ensures Sorted(r[..k] + [x] + r[k..], less)
  {
    var s := r[..k] + [x] + r[k..];
    forall i, j | 0 <= i < j < |s| ensures !less(s[j], s[i]) {
      if j == k {
        if i < k - 1 {
          assert !less(r[k - 1], r[i]);
        }
      }
    }
  }

  lemma HeadIsLeast<T(!new)>(a: seq<T>, x: T, less: (T, T) -> bool)
    requires Sorted(a, less) && x in multiset(a)
    ensures x == a[0] || !less(x, a[0])
  {
    var i :| 0 <= i < |a| && a[i] == x;
  }

  lemma DropHead<T(!new)>(a: seq<T>, less: (T, T) -> bool)
    requires a != [] && Sorted(a, less)
    ensures Sorted(a[1..], less) && multiset(a[1..]) == multiset(a) - multiset{a[0]}
  {
    assert a == [a[0]] + a[1..];
  }

  /** No two different elements tie. */
  ghost predicate NoTies<T(!new)>(less: (T, T) -> bool) {
    forall x, y :: !less(x, y) && !less(y, x) ==> x == y
  }

  /** When no two different elements tie, there is only one way to sort a collection. */
  lemma {:induction false} SortedIsUnique<T(!new)>(a: seq<T>, b: seq<T>, less: (T, T) -> bool)
    requires Sorted(a, less) && Sorted(b, less) && multiset(a) == multiset(b) && NoTies(less)
    ensures a == b
  {
    assert |multiset(a)| == |a| && |multiset(b)| == |b|;
    if a != [] {
      assert a[0] in multiset(b) && b[0] in multiset(a);
      HeadIsLeast(a, b[0], less);
      HeadIsLeast(b, a[0], less);
      DropHead(a, less);
      DropHead(b, less);
      SortedIsUnique(a[1..], b[1..], less);
      assert a == [a[0]] + a[1..] && b == [b[0]] + b[1..];
    }
  }
}
