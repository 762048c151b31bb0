/**
 * The k-means engine object: it holds the data X (N rows of D coordinates),
 * the number of clusters K, the round budget and the current centroids,
 * which compute_centroids and run update in place.
 */
module Engine {
  import opened Wrappers
  import opened Matrix
  import opened Init
  import opened Assign
  import opened Update
  import opened Score
  import opened Lloyd

  class Kmeans {
    const X: Mat
    /** The number of coordinates of every data row (the second dimension of X). */
    const D: nat
    const K: nat
    const maxIters: nat
    var centroids: Mat

    /** The data is an N x D matrix and the centroids a K x D one. */
    ghost predicate Valid()
      reads this
    {
      IsMatrix(X, |X|, D) && IsMatrix(centroids, K, D)
    }

    /**
     * __init__ with a draw that succeeds: the centroids are the distinct rows
     * of X that `choice` picks.
     */
    constructor (X: Mat, D: nat, K: nat, maxIters: nat, choice: seq<nat>)
      requires IsMatrix(X, |X|, D)
      requires K <= |UniqueRows(X)| && IsSample(choice, K, |UniqueRows(X)|)
      ensures Valid()
      ensures this.X == X && this.D == D && this.K == K && this.maxIters == maxIters
      ensures centroids == InitCentroids(X, K, choice).value
    {
      InitCentroidsShape(X, D, K, choice);
      this.X := X;
      this.D := D;
      this.K := K;
      this.maxIters := maxIters;
      centroids := InitCentroids(X, K, choice).value;
    }

    /**
     * closest_centroids: for each point, scan the centroids in order and keep
     * the index of the last strict improvement of the distance; the entry of
     * a point stays 0 when there are no centroids.
     */
    method ClosestCentroids() returns (idx: seq<int>)
      requires Valid()
      ensures Conformable(X, centroids) && idx == Assignment(X, centroids)
    {
      var C := centroids;
      SameColumnsConformable(X, C, D);
      var centroidIdx := new int[|X|](_ => 0);
      for i := 0 to |X|
        invariant forall i' :: 0 <= i' < i ==> centroidIdx[i'] == AssignPoint(X[i'], C)
      {
        var best := ScanNearest(X[i], C);
        centroidIdx[i] := best;
      }
      idx := centroidIdx[..];
      AssignmentFromPoints(X, C, idx);
    }

    /**
     * compute_centroids: build the new centroids (the mean of each cluster,
     * zeros for an empty one); keep the current centroids and report
     * convergence when they are all-close to the new ones, otherwise adopt
     * the new ones.
     */
    method ComputeCentroids(centroidIndices: seq<int>) returns (converged: bool)
      requires Valid() && |centroidIndices| == |X|
      modifies this
      ensures Valid()
      ensures converged == AllClose(old(centroids), NewCentroids(X, D, K, centroidIndices))
      ensures centroids == if converged then old(centroids) else NewCentroids(X, D, K, centroidIndices)
    {
      var current := centroids;
      ghost var target := NewCentroids(X, D, K, centroidIndices);
      var newCentroids := new Row[K](_ => Zeros(D));
      for i := 0 to K
        modifies newCentroids
        invariant forall k :: 0 <= k < i ==> newCentroids[k] == target[k]
        invariant forall k :: i <= k < K ==> newCentroids[k] == Zeros(D)
      {
        var clusterPoints := Members(X, D, centroidIndices, i);
        assert target[i] == if |clusterPoints| > 0 then Mean(clusterPoints, D) else Zeros(D);
        if |clusterPoints| > 0 {
          newCentroids[i] := Mean(clusterPoints, D);
        }
      }
      var nc := newCentroids[..];
      assert nc == target;
      if AllClose(current, nc) {
        converged := true;
      } else {
        centroids := nc;
        converged := false;
      }
    }

    /**
     * run: at most maxIters rounds of closest_centroids followed by
     * compute_centroids, stopping after the first round that converges; it
     * returns the centroids and the last assignment.
     */
    method Run() returns (C: Mat, centroidIdx: seq<int>)
      requires Valid() && maxIters >= 1
      modifies this
      ensures Valid() && C == centroids
      ensures var o := RunFrom(X, D, K, old(centroids), maxIters);
        C == o.centroids && centroidIdx == o.assignment
    {
      ghost var o := RunFrom(X, D, K, centroids, maxIters);
      // the rounds still allowed: the rest of the run is RunFrom with this budget
      ghost var left: nat := maxIters;
      centroidIdx := [];
      var i := 0;
      while i < maxIters
        invariant Valid() && i <= maxIters && left == maxIters - i
        invariant left >= 1 ==> o.centroids == RunFrom(X, D, K, centroids, left).centroids
        invariant left >= 1 ==> o.assignment == RunFrom(X, D, K, centroids, left).assignment
        invariant left == 0 ==> o.centroids == centroids && o.assignment == centroidIdx
        decreases left
      {
        ghost var prev := centroids;
        ghost var next: nat := left - 1;
        RunFromClose(X, D, K, prev, left);
        if left == 1 {
          RunFromLast(X, D, K, prev);
        } else {
          RunFromNext(X, D, K, prev, left, next);
        }
        centroidIdx := ClosestCentroids();
        var converged := ComputeCentroids(centroidIdx);
        if converged {
          break;
        }
        left := next;
        i := i + 1;
      }
      C := centroids;
    }

    /**
     * inertia: for each cluster k < K, the squared distances of its points to
     * givenCentroids[k], summed; points whose index is outside 0 .. K-1 add
     * nothing (Score.InertiaByCluster shows this is the per-point sum).
     */
    method Inertia(givenCentroids: Mat, centroidIndices: seq<int>) returns (inertia: real)
      requires Valid() && IsMatrix(givenCentroids, |givenCentroids|, D)
      requires K <= |givenCentroids| && |centroidIndices| == |X|
      ensures inertia == ByCluster(X, D, givenCentroids, centroidIndices, K)
      ensures inertia >= 0.0
    {
      inertia := 0.0;
      for k := 0 to K
        invariant inertia == ByCluster(X, D, givenCentroids, centroidIndices, k)
      {
        var clusterPoints := Members(X, D, centroidIndices, k);
        var c := givenCentroids[k];
        inertia := inertia + ClusterSSE(clusterPoints, c);
      }
    }
  }

  /**
   * The inner loop of closest_centroids: scan the centroids in order, keeping
   * the best squared distance so far (None stands for float('inf')) and the
   * index where it last strictly improved; 0 when there are no centroids.
   */
  method ScanNearest(x: Row, C: Mat) returns (best: int)
    requires SameDim(x, C)
    ensures best == AssignPoint(x, C)
    ensures |C| >= 1 ==> IsFirstNearest(x, C, |C|, best)
  {
    var minimumDist: Option<real> := None;
    best := 0;
    for j := 0 to |C|
      invariant NearestIn(x, C, j).None? ==> minimumDist.None? && best == 0
      invariant NearestIn(x, C, j).Some? ==>
        minimumDist == Some(SqDist(x, C[NearestIn(x, C, j).value])) && best == NearestIn(x, C, j).value
    {
      var dist := SqDist(x, C[j]);
      if minimumDist.None? || dist < minimumDist.value {
        minimumDist := Some(dist);
        best := j;
      }
    }
    if |C| >= 1 {
      NearestInIsFirstNearest(x, C, |C|);
    }
  }

  /**
   * __init__ including the failing draw: np.random.choice without
   * replacement rejects a request for more centroids than there are
   * distinct rows.
   */
  method NewKmeans(X: Mat, D: nat, K: nat, maxIters: nat, choice: seq<nat>)
    returns (r: Result<Kmeans, InitError>)
    requires IsMatrix(X, |X|, D)
    requires K <= |UniqueRows(X)| ==> IsSample(choice, K, |UniqueRows(X)|)
    ensures r.Err? <==> K > |UniqueRows(X)|
    ensures r.Err? ==> r.error == SampleLargerThanPopulation(K, |UniqueRows(X)|)
    ensures r.Ok? ==>
      && fresh(r.value) && r.value.Valid()
      && r.value.X == X && r.value.D == D && r.value.K == K && r.value.maxIters == maxIters
      && r.value.centroids == InitCentroids(X, K, choice).value
  {
    var init := InitCentroids(X, K, choice);
    if init.Err? {
      r := Err(init.error);
    } else {
      var engine := new Kmeans(X, D, K, maxIters, choice);
      r := Ok(engine);
    }
  }
}
