/**
 * inertia: the within-cluster sum of squared distances, as a sum over the
 * points (each point with an index in 0 .. K-1 adds its squared distance to
 * that centroid) and as the sum over clusters the code computes.
 */
module Score {
  import opened Matrix
  import opened Update

  /** What point `x` with index `c` adds to the inertia: nothing unless c is in 0 .. K-1. */
  function PointTerm(x: Row, C: Mat, K: nat, c: int): real
    requires SameDim(x, C) && K <= |C|
  {
    if 0 <= c < K then SqDist(x, C[c]) else 0.0
  }

  /** The inertia of the assignment `ci` to the first K rows of `C`. */
  function InertiaOf(X: Mat, C: Mat, ci: seq<int>, K: nat): (r: real)
    requires Conformable(X, C) && K <= |C| && |ci| == |X|
    ensures r >= 0.0
    decreases |X|
  {
    if |X| == 0 then 0.0
    else
      var n := |X| - 1;
      InertiaOf(X[..n], C, ci[..n], K) + PointTerm(X[n], C, K, ci[n])
  }

  /** Sum of the squared distances from `rows` to the point `c`. */
  function ClusterSSE(rows: Mat, c: Row): (r: real)
    requires forall i :: 0 <= i < |rows| ==> |rows[i]| == |c|
    ensures r >= 0.0
    decreases |rows|
  {
    if |rows| == 0 then 0.0
    else
      var n := |rows| - 1;
      ClusterSSE(rows[..n], c) + SqDist(rows[n], c)
  }

  /** The sum, over the clusters 0 .. K-1, of each cluster's squared distances to its centroid. */
  function ByCluster(X: Mat, D: nat, C: Mat, ci: seq<int>, K: nat): (r: real)
    requires IsMatrix(X, |X|, D) && IsMatrix(C, |C|, D) && K <= |C| && |ci| == |X|
    ensures r >= 0.0
    decreases K
  {
    if K == 0 then 0.0
    else ByCluster(X, D, C, ci, K - 1) + ClusterSSE(Members(X, D, ci, K - 1), C[K - 1])
  }

  /**
   * The last point adds its term to exactly the cluster it is assigned to:
   * the sum over clusters splits into that of the other points plus it.
   */
  lemma {:induction false} ByClusterLast(X: Mat, D: nat, C: Mat, ci: seq<int>, K: nat)
    requires IsMatrix(X, |X|, D) && IsMatrix(C, |C|, D) && K <= |C| && |ci| == |X| && |X| >= 1
    ensures IsMatrix(X[..|X| - 1], |X| - 1, D)
    ensures ByCluster(X, D, C, ci, K)
         == ByCluster(X[..|X| - 1], D, C, ci[..|X| - 1], K) + PointTerm(X[|X| - 1], C, K, ci[|X| - 1])
    decreases K
  {
    assert IsMatrix(X[..|X| - 1], |X| - 1, D);
    if K > 0 {
      forall k | 0 <= k < K
        ensures ByCluster(X, D, C, ci, k)
             == ByCluster(X[..|X| - 1], D, C, ci[..|X| - 1], k) + PointTerm(X[|X| - 1], C, k, ci[|X| - 1])
      {
        ByClusterLast(X, D, C, ci, k);
      }
      ClusterLast(X, D, C, ci, K);
    }
  }

  /**
   * Cluster K-1's sum changes with the last point by exactly what that point
   * adds to the inertia over K clusters and not over K-1.
   */
  lemma ClusterLast(X: Mat, D: nat, C: Mat, ci: seq<int>, K: nat)
    requires IsMatrix(X, |X|, D) && IsMatrix(C, |C|, D) && 1 <= K <= |C| && |ci| == |X| && |X| >= 1
    ensures IsMatrix(X[..|X| - 1], |X| - 1, D)
    ensures ClusterSSE(Members(X, D, ci, K - 1), C[K - 1])
         == ClusterSSE(Members(X[..|X| - 1], D, ci[..|X| - 1], K - 1), C[K - 1])
            + PointTerm(X[|X| - 1], C, K, ci[|X| - 1]) - PointTerm(X[|X| - 1], C, K - 1, ci[|X| - 1])
  {
    if ci[|X| - 1] == K - 1 {
      ClusterLastIn(X, D, C, ci, K - 1);
      assert PointTerm(X[|X| - 1], C, K, ci[|X| - 1]) == SqDist(X[|X| - 1], C[K - 1]);
      assert PointTerm(X[|X| - 1], C, K - 1, ci[|X| - 1]) == 0.0;
    } else {
      ClusterLastOut(X, D, C, ci, K - 1);
      assert PointTerm(X[|X| - 1], C, K, ci[|X| - 1]) == PointTerm(X[|X| - 1], C, K - 1, ci[|X| - 1]);
    }
  }

  /** When the last point is assigned to k, cluster k's sum grows by its squared distance. */
  lemma ClusterLastIn(X: Mat, D: nat, C: Mat, ci: seq<int>, k: nat)
    requires IsMatrix(X, |X|, D) && IsMatrix(C, |C|, D) && k < |C| && |ci| == |X| && |X| >= 1
    requires ci[|X| - 1] == k
    ensures IsMatrix(X[..|X| - 1], |X| - 1, D)
    ensures ClusterSSE(Members(X, D, ci, k), C[k])
         == ClusterSSE(Members(X[..|X| - 1], D, ci[..|X| - 1], k), C[k]) + SqDist(X[|X| - 1], C[k])
  {
    assert IsMatrix(X[..|X| - 1], |X| - 1, D);
    var m := Members(X[..|X| - 1], D, ci[..|X| - 1], k);
    assert Members(X, D, ci, k) == m + [X[|X| - 1]];
    ClusterSSESnoc(m, X[|X| - 1], C[k]);
  }

  /** Otherwise cluster k keeps its members and its sum. */
  lemma ClusterLastOut(X: Mat, D: nat, C: Mat, ci: seq<int>, k: nat)
    requires IsMatrix(X, |X|, D) && IsMatrix(C, |C|, D) && k < |C| && |ci| == |X| && |X| >= 1
    requires ci[|X| - 1] != k
    ensures IsMatrix(X[..|X| - 1], |X| - 1, D)
    ensures Members(X, D, ci, k) == Members(X[..|X| - 1], D, ci[..|X| - 1], k)
  {
    assert IsMatrix(X[..|X| - 1], |X| - 1, D);
    var m := Members(X[..|X| - 1], D, ci[..|X| - 1], k);
    assert Members(X, D, ci, k) == m + [];
    assert m + [] == m;
  }

  /** One more row adds its squared distance to the cluster's sum. */
  lemma ClusterSSESnoc(rows: Mat, x: Row, c: Row)
    requires (forall i :: 0 <= i < |rows| ==> |rows[i]| == |c|) && |x| == |c|
    ensures ClusterSSE(rows + [x], c) == ClusterSSE(rows, c) + SqDist(x, c)
  {
    assert (rows + [x])[..|rows|] == rows;
  }

  /**
   * The per-cluster sum that inertia accumulates equals the sum over the
   * points: each point lies in exactly one cluster if its index is in range
   * and in none otherwise.
   */
  lemma {:induction false} InertiaByCluster(X: Mat, D: nat, C: Mat, ci: seq<int>, K: nat)
    requires IsMatrix(X, |X|, D) && IsMatrix(C, |C|, D) && K <= |C| && |ci| == |X|
    ensures Conformable(X, C)
    ensures InertiaOf(X, C, ci, K) == ByCluster(X, D, C, ci, K)
    decreases |X|
  {
    SameColumnsConformable(X, C, D);
    if |X| == 0 {
      ByClusterEmpty(X, D, C, ci, K);
    } else {
      ByClusterLast(X, D, C, ci, K);
      InertiaByCluster(X[..|X| - 1], D, C, ci[..|X| - 1], K);
    }
  }

  lemma {:induction false} ByClusterEmpty(X: Mat, D: nat, C: Mat, ci: seq<int>, K: nat)
    requires |X| == 0 && IsMatrix(C, |C|, D) && K <= |C| && |ci| == 0
    ensures ByCluster(X, D, C, ci, K) == 0.0
    decreases K
  {
    if K > 0 {
      ByClusterEmpty(X, D, C, ci, K - 1);
    }
  }

  /** With no clusters no point adds anything, so the inertia is 0. */
  lemma {:induction false} InertiaNoClusters(X: Mat, C: Mat, ci: seq<int>)
    requires Conformable(X, C) && |ci| == |X|
    ensures InertiaOf(X, C, ci, 0) == 0.0
    decreases |X|
  {
    if |X| > 0 {
      InertiaNoClusters(X[..|X| - 1], C, ci[..|X| - 1]);
    }
  }

  /** Inertia grows with the terms of the points. */
  lemma {:induction false} InertiaPointwise(X: Mat, C: Mat, a: seq<int>, b: seq<int>, K: nat)
    requires Conformable(X, C) && K <= |C| && |a| == |X| && |b| == |X|
    requires forall i :: 0 <= i < |X| ==> PointTerm(X[i], C, K, a[i]) <= PointTerm(X[i], C, K, b[i])
    ensures InertiaOf(X, C, a, K) <= InertiaOf(X, C, b, K)
    decreases |X|
  {
    if |X| > 0 {
      var n := |X| - 1;
      InertiaPointwise(X[..n], C, a[..n], b[..n], K);
    }
  }

  /** Relabelling an index through `p`; indices outside 0 .. |p|-1 stay as they are. */
  function Relabel(p: seq<int>, c: int): int {
    if 0 <= c < |p| then p[c] else c
  }

  /**
   * Inertia does not depend on how the clusters are numbered: moving centroid
   * k to position p[k] and renaming every index k to p[k] keeps the total.
   */
  lemma {:induction false} InertiaLabelInvariant(X: Mat, C: Mat, ci: seq<int>, K: nat, p: seq<int>, C': Mat, ci': seq<int>)
    requires Conformable(X, C) && Conformable(X, C') && K <= |C| && K <= |C'|
    requires |ci| == |X| && |ci'| == |X|
    requires |p| == K && forall k :: 0 <= k < K ==> 0 <= p[k] < K && C'[p[k]] == C[k]
    requires forall i :: 0 <= i < |X| ==> ci'[i] == Relabel(p, ci[i])
    ensures InertiaOf(X, C', ci', K) == InertiaOf(X, C, ci, K)
    decreases |X|
  {
    if |X| > 0 {
      var n := |X| - 1;
      InertiaLabelInvariant(X[..n], C, ci[..n], K, p, C', ci'[..n]);
    }
  }

  /** A point lying exactly on its centroid adds nothing: if all do, inertia is 0. */
  lemma {:induction false} InertiaZeroWhenOnCentroids(X: Mat, C: Mat, ci: seq<int>, K: nat)
    requires Conformable(X, C) && K <= |C| && |ci| == |X|
    requires forall i :: 0 <= i < |X| && 0 <= ci[i] < K ==> X[i] == C[ci[i]]
    ensures InertiaOf(X, C, ci, K) == 0.0
    decreases |X|
  {
    if |X| > 0 {
      var n := |X| - 1;
      InertiaZeroWhenOnCentroids(X[..n], C, ci[..n], K);
      SqDistSelf(X[n]);
    }
  }
}
