/** Sizes of finite sets, for the pigeonhole arguments about table cells and pool slots. */
module Counting {
  /** The numbers from 0 to n - 1. */
  function Below(n: nat): (all: set<int>)
    ensures |all| == n && forall x :: x in all <==> 0 <= x < n
  {
    if n == 0 then {} else Below(n - 1) + {n - 1}
  }

  lemma {:induction false} SubsetSize<T>(a: set<T>, b: set<T>)
    requires a <= b
    ensures |a| <= |b|
    decreases a
  {
    if a != {} {
      var x :| x in a;
      SubsetSize(a - {x}, b - {x});
    }
  }
}
