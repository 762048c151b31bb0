/**
 * The assignment step of closest_centroids, as functions: each point goes to
 * the nearest centroid, the lowest index winning a tie, because the scan over
 * the centroids replaces its best only on a strictly smaller distance.
 */
module Assign {
  import opened Wrappers
  import opened Matrix

  /**
   * `j` is the first of the centroids C[0 .. n-1] nearest to `x`: no centroid
   * among them is nearer, and every centroid before it is strictly farther.
   */
  predicate IsFirstNearest(x: Row, C: Mat, n: nat, j: int)
    requires n <= |C| && SameDim(x, C)
  {
    && 0 <= j < n
    && (forall j' :: 0 <= j' < n ==> SqDist(x, C[j]) <= SqDist(x, C[j']))
    && (forall j' :: 0 <= j' < j ==> SqDist(x, C[j]) < SqDist(x, C[j']))
  }

  /**
   * What the scan over C[0 .. n-1] has found: None while no centroid has been
   * seen (the best distance is still infinity), otherwise the index of the
   * last strict improvement.
   */
  function NearestIn(x: Row, C: Mat, n: nat): (b: Option<nat>)
    requires n <= |C| && SameDim(x, C)
    ensures b.None? <==> n == 0
    ensures b.Some? ==> b.value < n
    decreases n
  {
    if n == 0 then None
    else
      var b := NearestIn(x, C, n - 1);
      if b.None? || SqDist(x, C[n - 1]) < SqDist(x, C[b.value]) then Some(n - 1) else b
  }

  /** The scan's answer is the first nearest centroid among those it has seen. */
  lemma {:induction false} NearestInIsFirstNearest(x: Row, C: Mat, n: nat)
    requires n <= |C| && SameDim(x, C) && n >= 1
    ensures IsFirstNearest(x, C, n, NearestIn(x, C, n).value)
    decreases n
  {
    if n > 1 {
      NearestInIsFirstNearest(x, C, n - 1);
    }
  }

  /**
   * The entry closest_centroids leaves for point `x`: the nearest centroid,
   * or the 0 the index array was filled with when there are no centroids.
   */
  function AssignPoint(x: Row, C: Mat): (j: int)
    requires SameDim(x, C)
    ensures |C| == 0 ==> j == 0
    ensures |C| >= 1 ==> 0 <= j < |C|
  {
    if |C| == 0 then 0 else NearestIn(x, C, |C|).value
  }

  /** The index array closest_centroids returns for points X and centroids C. */
  function Assignment(X: Mat, C: Mat): (a: seq<int>)
    requires Conformable(X, C)
    ensures |a| == |X|
    ensures forall i :: 0 <= i < |X| ==> if |C| == 0 then a[i] == 0 else 0 <= a[i] < |C|
  {
    seq(|X|, i requires 0 <= i < |X| => AssignPoint(X[i], C))
  }

  /** Every point is assigned the first of the centroids nearest to it. */
  lemma AssignmentNearest(X: Mat, C: Mat)
    requires Conformable(X, C) && |C| >= 1
    ensures forall i :: 0 <= i < |X| ==> IsFirstNearest(X[i], C, |C|, Assignment(X, C)[i])
  {
    forall i | 0 <= i < |X|
      ensures IsFirstNearest(X[i], C, |C|, Assignment(X, C)[i])
    {
      assert Assignment(X, C)[i] == AssignPoint(X[i], C);
      NearestInIsFirstNearest(X[i], C, |C|);
    }
  }

  /** An index vector that agrees with AssignPoint at every point is the assignment. */
  lemma AssignmentFromPoints(X: Mat, C: Mat, idx: seq<int>)
    requires Conformable(X, C) && |idx| == |X|
    requires forall i :: 0 <= i < |X| ==> idx[i] == AssignPoint(X[i], C)
    ensures idx == Assignment(X, C)
  {
  }

  /** The first nearest centroid is unique, so the tie-break fixes the assignment. */
  lemma FirstNearestUnique(x: Row, C: Mat, n: nat, j1: int, j2: int)
    requires n <= |C| && SameDim(x, C)
    requires IsFirstNearest(x, C, n, j1) && IsFirstNearest(x, C, n, j2)
    ensures j1 == j2
  {
    // both are nearest, so they are equally near, and neither can precede the other
    assert SqDist(x, C[j1]) == SqDist(x, C[j2]);
  }

  /**
   * The assignment is determined by the nearest-with-lowest-index rule: any
   * index vector that obeys it is the one closest_centroids computes.
   */
  lemma AssignmentCharacterized(X: Mat, C: Mat, a: seq<int>)
    requires Conformable(X, C) && |C| >= 1 && |a| == |X|
    requires forall i :: 0 <= i < |X| ==> IsFirstNearest(X[i], C, |C|, a[i])
    ensures a == Assignment(X, C)
  {
    var b := Assignment(X, C);
    AssignmentNearest(X, C);
    forall i | 0 <= i < |X|
      ensures a[i] == b[i]
    {
      FirstNearestUnique(X[i], C, |C|, a[i], b[i]);
    }
  }
}
