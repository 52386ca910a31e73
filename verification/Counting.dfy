/** Sets of indices: how many there can be, and when they are all there. */
module Counting {

  lemma {:induction false} BoundedSet(a: set<nat>, n: nat)
    requires forall i | i in a :: i < n
    ensures |a| <= n
    ensures |a| == n ==> forall i | 0 <= i < n :: i in a
  {
    if n > 0 {
      BoundedSet(a - {n - 1}, n - 1);
      if n - 1 in a {
        assert |a - {n - 1}| == |a| - 1;
        assert a == (a - {n - 1}) + {n - 1};
      } else {
        assert a - {n - 1} == a;
      }
    } else {
      assert a == {};
    }
  }

  lemma {:induction false} WholeSet(a: set<nat>, n: nat)
    requires forall i: nat :: i in a <==> i < n
    ensures |a| == n
  {
    if n == 0 {
      assert a == {};
    } else {
      WholeSet(a - {n - 1}, n - 1);
    }
  }
}
