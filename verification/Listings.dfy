/** What list and describe calls return. */
module Listings {
  /** Lists a set in some order, as the describe calls do. */
  method Listing<T>(s: set<T>) returns (r: seq<T>)
    ensures forall x :: x in s <==> x in r
    ensures forall i :: 0 <= i < |r| ==> r[i] in s
    ensures s == {} <==> r == []
    ensures forall i, j :: 0 <= i < j < |r| ==> r[i] != r[j]
  {
    r := [];
    var rest := s;
    while rest != {}
      invariant rest <= s
      invariant forall x :: x in s <==> x in rest || x in r
      invariant |rest| + |r| == |s|
      invariant forall x :: x in rest ==> x !in r
      invariant forall i, j :: 0 <= i < j < |r| ==> r[i] != r[j]
    {
      var x :| x in rest;
      r, rest := r + [x], rest - {x};
    }
  }
}
