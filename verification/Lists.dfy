/** Increasing lists of numbers, by which the elements with a property are picked out in order. */
module Lists {
  ghost predicate Increasing(ids: seq<nat>) {
    forall i, j :: 0 <= i < j < |ids| ==> ids[i] < ids[j]
  }

  /** The greatest element of an increasing list is its last. */
  lemma {:induction false} LastIsGreatest(ids: seq<nat>, k: nat)
    requires Increasing(ids) && k in ids && forall j: nat :: j in ids ==> j <= k
    ensures ids[|ids| - 1] == k
    ensures Increasing(ids[..|ids| - 1]) && forall j: nat :: j in ids[..|ids| - 1] <==> j in ids && j != k
  {
    var i :| 0 <= i < |ids| && ids[i] == k;
    var n := |ids| - 1;
    assert ids[n] in ids;
    assert ids == ids[..n] + [ids[n]];
    forall j: nat | j in ids[..n] ensures j in ids && j != k {
      var m :| 0 <= m < n && ids[..n][m] == j;
      assert ids[m] == j;
    }
  }

  lemma {:induction false} SomethingIn(ids: seq<nat>)
    ensures ids == [] || exists k: nat :: k in ids
  {
    if ids != [] {
      assert ids[0] in ids;
    }
  }
}
