/**
 * The update step of compute_centroids, as functions: the rows of each
 * cluster, their per-dimension mean, the matrix of new centroids (an all-zero
 * row for a cluster without members) and the all-close convergence test.
 */
module Update {
  import opened Matrix

  /** Relative and absolute tolerance of np.allclose, at their defaults. */
  const RTOL: real := 0.00001
  const ATOL: real := 0.00000001

  /** How many entries of `ci` are `k`. */
  function Count(ci: seq<int>, k: int): (c: nat)
    ensures c <= |ci|
    decreases |ci|
  {
    if |ci| == 0 then 0
    else Count(ci[..|ci| - 1], k) + (if ci[|ci| - 1] == k then 1 else 0)
  }

  /**
   * X[ci == k]: the rows of X whose index is k, in their order in X. `D` is
   * the number of columns of X, which the members share.
   */
  function Members(X: Mat, D: nat, ci: seq<int>, k: int): (m: Mat)
    requires IsMatrix(X, |X|, D) && |ci| == |X|
    ensures IsMatrix(m, Count(ci, k), D)
    ensures forall j :: 0 <= j < |m| ==> m[j] in X
    decreases |X|
  {
    if |X| == 0 then []
    else
      var n := |X| - 1;
      assert X == X[..n] + [X[n]];
      Members(X[..n], D, ci[..n], k) + (if ci[n] == k then [X[n]] else [])
  }

  /** Sum of coordinate `d` over `rows`. */
  function ColSum(rows: Mat, d: nat): real
    requires forall i :: 0 <= i < |rows| ==> d < |rows[i]|
    decreases |rows|
  {
    if |rows| == 0 then 0.0
    else ColSum(rows[..|rows| - 1], d) + rows[|rows| - 1][d]
  }

  /** np.mean(rows, axis=0): the per-dimension mean of a non-empty set of rows. */
  function Mean(rows: Mat, D: nat): (m: Row)
    requires |rows| > 0 && IsMatrix(rows, |rows|, D)
    ensures |m| == D
    ensures forall d :: 0 <= d < D ==> m[d] * (|rows| as real) == ColSum(rows, d)
  {
    seq(D, d requires 0 <= d < D => ColSum(rows, d) / (|rows| as real))
  }

  /**
   * The matrix compute_centroids builds: row k is the mean of cluster k, or
   * the all-zero row np.zeros_like left there when cluster k is empty.
   */
  function NewCentroids(X: Mat, D: nat, K: nat, ci: seq<int>): (nc: Mat)
    requires IsMatrix(X, |X|, D) && |ci| == |X|
    ensures IsMatrix(nc, K, D)
  {
    seq(K, k requires 0 <= k < K =>
      var m := Members(X, D, ci, k);
      if |m| > 0 then Mean(m, D) else Zeros(D))
  }

  function Abs(a: real): real {
    if a < 0.0 then -a else a
  }

  /** np.isclose(a, b): |a - b| <= atol + rtol * |b|; `b` is the reference value. */
  predicate IsClose(a: real, b: real)
    ensures a == b ==> IsClose(a, b)
    ensures b == 0.0 ==> (IsClose(a, b) <==> -ATOL <= a <= ATOL)
  {
    Abs(a - b) <= ATOL + RTOL * Abs(b)
  }

  /** np.allclose(A, B) for two matrices of the same shape. */
  predicate AllClose(A: Mat, B: Mat)
    requires |A| == |B| && forall k :: 0 <= k < |A| ==> |A[k]| == |B[k]|
    ensures A == [] ==> AllClose(A, B)
  {
    forall k, d :: 0 <= k < |A| && 0 <= d < |A[k]| ==> IsClose(A[k][d], B[k][d])
  }

  /** Sum of coordinate `d` over the points of X whose index is k. */
  function ClusterColSum(X: Mat, ci: seq<int>, k: int, d: nat): real
    requires |ci| == |X| && forall i :: 0 <= i < |X| ==> d < |X[i]|
    decreases |X|
  {
    if |X| == 0 then 0.0
    else
      var n := |X| - 1;
      ClusterColSum(X[..n], ci[..n], k, d) + (if ci[n] == k then X[n][d] else 0.0)
  }

  lemma {:induction false} MembersColSum(X: Mat, D: nat, ci: seq<int>, k: int, d: nat)
    requires IsMatrix(X, |X|, D) && |ci| == |X| && d < D
    ensures ColSum(Members(X, D, ci, k), d) == ClusterColSum(X, ci, k, d)
    decreases |X|
  {
    if |X| > 0 {
      MembersColSum(X[..|X| - 1], D, ci[..|X| - 1], k, d);
      var m := Members(X[..|X| - 1], D, ci[..|X| - 1], k);
      if ci[|X| - 1] == k {
        assert Members(X, D, ci, k) == m + [X[|X| - 1]];
        ColSumSnoc(m, X[|X| - 1], d);
      } else {
        assert Members(X, D, ci, k) == m + [];
        assert m + [] == m;
      }
    }
  }

  /** One more row adds its coordinate `d` to the sum. */
  lemma ColSumSnoc(rows: Mat, x: Row, d: nat)
    requires (forall i :: 0 <= i < |rows| ==> d < |rows[i]|) && d < |x|
    ensures ColSum(rows + [x], d) == ColSum(rows, d) + x[d]
  {
    assert (rows + [x])[..|rows|] == rows;
  }

  /**
   * What compute_centroids computes, stated point by point: for a cluster
   * with members, each coordinate of its new row is the sum of that
   * coordinate over the members divided by their number; an empty cluster
   * gets the all-zero row.
   */
  lemma NewCentroidsRow(X: Mat, D: nat, K: nat, ci: seq<int>, k: nat)
    requires IsMatrix(X, |X|, D) && |ci| == |X| && k < K
    ensures Count(ci, k) == 0 ==> NewCentroids(X, D, K, ci)[k] == Zeros(D)
    ensures Count(ci, k) > 0 ==> forall d :: 0 <= d < D ==>
      NewCentroids(X, D, K, ci)[k][d] == ClusterColSum(X, ci, k, d) / (Count(ci, k) as real)
  {
    forall d | 0 <= d < D
      ensures Count(ci, k) > 0 ==>
        NewCentroids(X, D, K, ci)[k][d] == ClusterColSum(X, ci, k, d) / (Count(ci, k) as real)
    {
      MembersColSum(X, D, ci, k, d);
    }
  }

  /** Unchanged centroids are all-close to themselves. */
  lemma AllCloseReflexive(A: Mat)
    ensures AllClose(A, A)
  {
  }

  /**
   * Where a new coordinate is 0 only the absolute tolerance applies: the old
   * coordinate must lie within ATOL of 0.
   */
  lemma AllCloseAtZero(A: Mat, B: Mat, k: nat, d: nat)
    requires |A| == |B| && forall k' :: 0 <= k' < |A| ==> |A[k']| == |B[k']|
    requires k < |A| && d < |A[k]| && B[k][d] == 0.0
    ensures AllClose(A, B) ==> -ATOL <= A[k][d] <= ATOL
  {
  }

  /**
   * np.allclose is not symmetric: the relative tolerance scales with the
   * second argument, so the order old-then-new of the convergence test matters.
   */
  lemma AllCloseNotSymmetric()
    ensures AllClose([[0.0]], [[0.00000001000005]])
    ensures !AllClose([[0.00000001000005]], [[0.0]])
  {
    var A: Mat, B: Mat := [[0.00000001000005]], [[0.0]];
    assert !IsClose(A[0][0], B[0][0]);
  }
}
