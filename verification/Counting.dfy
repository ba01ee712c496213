/**
 Sizes of finite sets of numbers: ranges, the elements of a sequence without
 repetition, and subsets.
 */
module Counting {

  ghost function Range(n: nat): set<int> { if n == 0 then {} else Range(n - 1) + {n - 1} }

  lemma {:induction false} RangeSize(n: nat)
    ensures |Range(n)| == n && forall i :: i in Range(n) <==> 0 <= i < n
  {
    if n > 0 {
      RangeSize(n - 1);
    }
  }

  ghost function Elements(q: seq<int>): set<int> { set k | 0 <= k < |q| :: q[k] }

  lemma {:induction false} ElementsSize(q: seq<int>)
    requires forall k, l :: 0 <= k < l < |q| ==> q[k] != q[l]
    ensures |Elements(q)| == |q|
  {
    if q != [] {
      var n := |q| - 1;
      ElementsSize(q[..n]);
      assert Elements(q) == Elements(q[..n]) + {q[n]};
      assert q[n] !in Elements(q[..n]);
    } else {
      assert Elements(q) == {};
    }
  }

  lemma SubsetSize<T>(a: set<T>, b: set<T>)
    requires a <= b
    ensures |a| <= |b|
  {
    assert b == a + (b - a);
  }

  lemma AnElement(a: set<int>) returns (e: int)
    requires a != {}
    ensures e in a
  {
    if forall x :: x !in a { assert false; }
    e :| e in a;
  }
}
