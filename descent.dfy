/**
 * Why Lloyd's iteration makes progress: neither half of a round increases the
 * inertia. Reassigning every point to its nearest centroid cannot, and
 * replacing each centroid by the mean of its cluster cannot, because the mean
 * minimises the sum of squared distances to the cluster's points.
 */
module Descent {
  import opened Matrix
  import opened Assign
  import opened Update
  import opened Score

  /** Sum of the squared differences between coordinate `d` of `rows` and `a`. */
  function ColSSE(rows: Mat, d: nat, a: real): (r: real)
    requires forall i :: 0 <= i < |rows| ==> d < |rows[i]|
    ensures r >= 0.0
    decreases |rows|
  {
    if |rows| == 0 then 0.0
    else ColSSE(rows[..|rows| - 1], d, a) + Square(rows[|rows| - 1][d] - a)
  }

  /** The number of rows as a real, counted one row at a time. */
  function RowCount(rows: Mat): (r: real)
    ensures r >= 0.0
    decreases |rows|
  {
    if |rows| == 0 then 0.0 else RowCount(rows[..|rows| - 1]) + 1.0
  }

  lemma {:induction false} RowCountIsLength(rows: Mat)
    ensures RowCount(rows) == |rows| as real
    decreases |rows|
  {
    if |rows| > 0 {
      RowCountIsLength(rows[..|rows| - 1]);
    }
  }

  /** Sum of the deviations of coordinate `d` of `rows` from `m`. */
  function Dev(rows: Mat, d: nat, m: real): real
    requires forall i :: 0 <= i < |rows| ==> d < |rows[i]|
    decreases |rows|
  {
    if |rows| == 0 then 0.0 else Dev(rows[..|rows| - 1], d, m) + (rows[|rows| - 1][d] - m)
  }

  /** Sum of the deviations from `m`, each scaled by `c`. */
  function Cross(rows: Mat, d: nat, c: real, m: real): real
    requires forall i :: 0 <= i < |rows| ==> d < |rows[i]|
    decreases |rows|
  {
    if |rows| == 0 then 0.0 else Cross(rows[..|rows| - 1], d, c, m) + c * (rows[|rows| - 1][d] - m)
  }

  /** The value `q` summed once per row. */
  function Spread(rows: Mat, q: real): (r: real)
    ensures q >= 0.0 ==> r >= 0.0
    decreases |rows|
  {
    if |rows| == 0 then 0.0 else Spread(rows[..|rows| - 1], q) + q
  }

  lemma SquareShift(x: real, a: real, m: real)
    ensures Square(x - a) == Square(x - m) + 2.0 * (m - a) * (x - m) + Square(m - a)
  {
  }

  lemma Distrib(c: real, u: real, v: real)
    ensures c * (u + v) == c * u + c * v
  {
  }

  lemma MulEq(c: real, u: real, v: real)
    requires u == v
    ensures c * u == c * v
  {
  }

  lemma ScaleSucc(N: real, np: real, q: real)
    requires N == np + 1.0
    ensures N * q == np * q + q
  {
  }

  lemma DivTimes(S: real, n: real, L: real)
    requires n > 0.0 && L == n
    ensures L * (S / n) == S
  {
  }

  /**
   * Measuring from a instead of m adds, per row, the cross term
   * 2 (m - a) (x - m) and the constant (m - a)^2.
   */
  lemma {:induction false} ColSSEShift(rows: Mat, d: nat, a: real, m: real)
    requires forall i :: 0 <= i < |rows| ==> d < |rows[i]|
    ensures ColSSE(rows, d, a)
         == ColSSE(rows, d, m) + Cross(rows, d, 2.0 * (m - a), m) + Spread(rows, Square(m - a))
    decreases |rows|
  {
    if |rows| > 0 {
      var n := |rows| - 1;
      ColSSEShift(rows[..n], d, a, m);
      SquareShift(rows[n][d], a, m);
    }
  }

  /** The scaled deviations sum to the scale times the deviation sum. */
  lemma {:induction false} CrossDev(rows: Mat, d: nat, c: real, m: real)
    requires forall i :: 0 <= i < |rows| ==> d < |rows[i]|
    ensures Cross(rows, d, c, m) == c * Dev(rows, d, m)
    decreases |rows|
  {
    if |rows| == 0 {
      MulEq(c, Dev(rows, d, m), 0.0);
    } else {
      var n := |rows| - 1;
      var p, x := rows[..n], rows[n][d];
      CrossDev(p, d, c, m);
      MulEq(c, Dev(rows, d, m), Dev(p, d, m) + (x - m));
      Distrib(c, Dev(p, d, m), x - m);
    }
  }

  /** The deviation sum is the column sum less n times m. */
  lemma {:induction false} DevSum(rows: Mat, d: nat, m: real)
    requires forall i :: 0 <= i < |rows| ==> d < |rows[i]|
    ensures Dev(rows, d, m) == ColSum(rows, d) - RowCount(rows) * m
    decreases |rows|
  {
    if |rows| > 0 {
      var p := rows[..|rows| - 1];
      DevSum(p, d, m);
      ScaleSucc(RowCount(rows), RowCount(p), m);
    }
  }

  /** Along one coordinate, a point m from which the rows deviate by zero in sum is nearest to them. */
  lemma ColMinimumAt(rows: Mat, d: nat, a: real, m: real)
    requires forall i :: 0 <= i < |rows| ==> d < |rows[i]|
    requires Dev(rows, d, m) == 0.0
    ensures ColSSE(rows, d, m) <= ColSSE(rows, d, a)
  {
    ColSSEShift(rows, d, a, m);
    CrossDev(rows, d, 2.0 * (m - a), m);
    MulEq(2.0 * (m - a), Dev(rows, d, m), 0.0);
  }

  /** Along one coordinate the mean is the point nearest, in squared distance, to the rows. */
  lemma ColMeanMinimizes(rows: Mat, d: nat, a: real)
    requires |rows| > 0 && forall i :: 0 <= i < |rows| ==> d < |rows[i]|
    ensures ColSSE(rows, d, ColSum(rows, d) / (|rows| as real)) <= ColSSE(rows, d, a)
  {
    var m := ColSum(rows, d) / (|rows| as real);
    DevSum(rows, d, m);
    RowCountIsLength(rows);
    DivTimes(ColSum(rows, d), |rows| as real, RowCount(rows));
    ColMinimumAt(rows, d, a, m);
  }

  /** Sum of ColSSE over the coordinates 0 .. n-1, coordinate d measured from c[d]. */
  function SumColSSE(rows: Mat, c: Row, n: nat): real
    requires n <= |c| && forall i :: 0 <= i < |rows| ==> |rows[i]| == |c|
    decreases n
  {
    if n == 0 then 0.0 else SumColSSE(rows, c, n - 1) + ColSSE(rows, n - 1, c[n - 1])
  }

  lemma {:induction false} SumColSSESnoc(rows: Mat, x: Row, c: Row, n: nat)
    requires n <= |c| && |x| == |c| && forall i :: 0 <= i < |rows| ==> |rows[i]| == |c|
    ensures forall i :: 0 <= i < |rows + [x]| ==> |(rows + [x])[i]| == |c|
    ensures SumColSSE(rows + [x], c, n) == SumColSSE(rows, c, n) + SqDist(x[..n], c[..n])
    decreases n
  {
    assert forall i :: 0 <= i < |rows + [x]| ==> |(rows + [x])[i]| == |c|;
    if n > 0 {
      SumColSSESnoc(rows, x, c, n - 1);
      assert (rows + [x])[..|rows|] == rows;
      assert x[..n][..n - 1] == x[..n - 1] && c[..n][..n - 1] == c[..n - 1];
    }
  }

  /** The squared distances to `c`, summed row by row or coordinate by coordinate. */
  lemma {:induction false} SSEByColumns(rows: Mat, c: Row)
    requires forall i :: 0 <= i < |rows| ==> |rows[i]| == |c|
    ensures ClusterSSE(rows, c) == SumColSSE(rows, c, |c|)
    decreases |rows|
  {
    if |rows| == 0 {
      SumColSSEEmpty(rows, c, |c|);
    } else {
      var n := |rows| - 1;
      SSEByColumns(rows[..n], c);
      SumColSSESnoc(rows[..n], rows[n], c, |c|);
      assert rows[..n] + [rows[n]] == rows;
      assert rows[n][..|c|] == rows[n] && c[..|c|] == c;
    }
  }

  lemma {:induction false} SumColSSEEmpty(rows: Mat, c: Row, n: nat)
    requires |rows| == 0 && n <= |c|
    ensures SumColSSE(rows, c, n) == 0.0
    decreases n
  {
    if n > 0 {
      SumColSSEEmpty(rows, c, n - 1);
    }
  }

  lemma {:induction false} SumColSSEMono(rows: Mat, a: Row, b: Row, n: nat)
    requires n <= |a| == |b| && forall i :: 0 <= i < |rows| ==> |rows[i]| == |a|
    requires forall d :: 0 <= d < n ==> ColSSE(rows, d, a[d]) <= ColSSE(rows, d, b[d])
    ensures SumColSSE(rows, a, n) <= SumColSSE(rows, b, n)
    decreases n
  {
    if n > 0 {
      SumColSSEMono(rows, a, b, n - 1);
    }
  }

  /** The mean of a non-empty cluster is nearest, in total squared distance, to its rows. */
  lemma MeanMinimizesSSE(rows: Mat, D: nat, c: Row)
    requires |rows| > 0 && IsMatrix(rows, |rows|, D) && |c| == D
    ensures ClusterSSE(rows, Mean(rows, D)) <= ClusterSSE(rows, c)
  {
    var m := Mean(rows, D);
    SSEByColumns(rows, m);
    SSEByColumns(rows, c);
    forall d | 0 <= d < D
      ensures ColSSE(rows, d, m[d]) <= ColSSE(rows, d, c[d])
    {
      ColMeanMinimizes(rows, d, c[d]);
    }
    SumColSSEMono(rows, m, c, D);
  }

  /** Sum of a sequence of reals. */
  function Total(s: seq<real>): real
    decreases |s|
  {
    if |s| == 0 then 0.0 else Total(s[..|s| - 1]) + s[|s| - 1]
  }

  lemma {:induction false} TotalMono(s: seq<real>, t: seq<real>)
    requires |s| == |t| && forall k :: 0 <= k < |s| ==> s[k] <= t[k]
    ensures Total(s) <= Total(t)
    decreases |s|
  {
    if |s| > 0 {
      TotalMono(s[..|s| - 1], t[..|t| - 1]);
    }
  }

  /** The cost of each of the first K clusters around its centroid in C. */
  function Costs(X: Mat, D: nat, C: Mat, ci: seq<int>, K: nat): (s: seq<real>)
    requires IsMatrix(X, |X|, D) && IsMatrix(C, |C|, D) && K <= |C| && |ci| == |X|
    ensures |s| == K
  {
    seq(K, k requires 0 <= k < K => ClusterSSE(Members(X, D, ci, k), C[k]))
  }

  lemma {:induction false} ByClusterTotal(X: Mat, D: nat, C: Mat, ci: seq<int>, K: nat)
    requires IsMatrix(X, |X|, D) && IsMatrix(C, |C|, D) && K <= |C| && |ci| == |X|
    ensures ByCluster(X, D, C, ci, K) == Total(Costs(X, D, C, ci, K))
    decreases K
  {
    if K > 0 {
      ByClusterTotal(X, D, C, ci, K - 1);
      assert Costs(X, D, C, ci, K)[..K - 1] == Costs(X, D, C, ci, K - 1);
    }
  }

  /**
   * The update half of a round: for a fixed assignment, the new centroids of
   * compute_centroids have no larger inertia than any K x D centroids.
   */
  lemma UpdateDoesNotIncreaseInertia(X: Mat, D: nat, K: nat, C: Mat, ci: seq<int>)
    requires IsMatrix(X, |X|, D) && IsMatrix(C, K, D) && |ci| == |X|
    ensures Conformable(X, C) && Conformable(X, NewCentroids(X, D, K, ci))
    ensures InertiaOf(X, NewCentroids(X, D, K, ci), ci, K) <= InertiaOf(X, C, ci, K)
  {
    var nc := NewCentroids(X, D, K, ci);
    InertiaByCluster(X, D, nc, ci, K);
    InertiaByCluster(X, D, C, ci, K);
    var s, t := Costs(X, D, nc, ci, K), Costs(X, D, C, ci, K);
    forall k | 0 <= k < K
      ensures s[k] <= t[k]
    {
      var m := Members(X, D, ci, k);
      if |m| > 0 {
        MeanMinimizesSSE(m, D, C[k]);
      }
    }
    TotalMono(s, t);
    ByClusterTotal(X, D, nc, ci, K);
    ByClusterTotal(X, D, C, ci, K);
  }

  /**
   * The assignment half of a round: sending every point to its nearest
   * centroid gives no larger inertia than any assignment into 0 .. K-1.
   */
  lemma AssignmentDoesNotIncreaseInertia(X: Mat, C: Mat, ci: seq<int>)
    requires Conformable(X, C) && |ci| == |X|
    requires forall i :: 0 <= i < |X| ==> 0 <= ci[i] < |C|
    ensures InertiaOf(X, C, Assignment(X, C), |C|) <= InertiaOf(X, C, ci, |C|)
  {
    var a := Assignment(X, C);
    forall i | 0 <= i < |X|
      ensures PointTerm(X[i], C, |C|, a[i]) <= PointTerm(X[i], C, |C|, ci[i])
    {
      AssignmentNearest(X, C);
      assert IsFirstNearest(X[i], C, |C|, a[i]);
    }
    InertiaPointwise(X, C, a, ci, |C|);
  }

  /**
   * One round of Lloyd's iteration (assign, then recompute the means) never
   * increases inertia, measured against the round's starting centroids and
   * any assignment into 0 .. K-1.
   */
  lemma RoundDoesNotIncreaseInertia(X: Mat, D: nat, K: nat, C: Mat, ci: seq<int>)
    requires IsMatrix(X, |X|, D) && IsMatrix(C, K, D) && |ci| == |X|
    requires forall i :: 0 <= i < |X| ==> 0 <= ci[i] < K
    ensures Conformable(X, C)
    ensures var a := Assignment(X, C);
      Conformable(X, NewCentroids(X, D, K, a))
      && InertiaOf(X, NewCentroids(X, D, K, a), a, K) <= InertiaOf(X, C, ci, K)
  {
    SameColumnsConformable(X, C, D);
    var a := Assignment(X, C);
    UpdateDoesNotIncreaseInertia(X, D, K, C, a);
    AssignmentDoesNotIncreaseInertia(X, C, ci);
  }
}
