/**
 * Points and centroids as rows of real coordinates, and the distance between
 * two rows. A matrix is a sequence of rows; its shape is stated by IsMatrix.
 */
module Matrix {

  type Row = seq<real>
  type Mat = seq<Row>

  /** `m` has `rows` rows of `cols` coordinates each. */
  predicate IsMatrix(m: Mat, rows: nat, cols: nat) {
    |m| == rows && forall i :: 0 <= i < |m| ==> |m[i]| == cols
  }

  /** Every row of `C` has as many coordinates as `x`. */
  predicate SameDim(x: Row, C: Mat) {
    forall j :: 0 <= j < |C| ==> |C[j]| == |x|
  }

  /** Every point of `X` can be compared with every row of `C`. */
  predicate Conformable(X: Mat, C: Mat) {
    forall i :: 0 <= i < |X| ==> SameDim(X[i], C)
  }

  /** Two matrices with the same number of columns are conformable. */
  lemma SameColumnsConformable(X: Mat, C: Mat, D: nat)
    requires IsMatrix(X, |X|, D) && IsMatrix(C, |C|, D)
    ensures Conformable(X, C)
  {
  }

  /** No element occurs twice. */
  predicate Distinct<T(==)>(s: seq<T>) {
    forall i, j :: 0 <= i < j < |s| ==> s[i] != s[j]
  }

  /** The all-zero row of `n` coordinates. */
  function Zeros(n: nat): (r: Row)
    ensures |r| == n
    ensures forall d :: 0 <= d < n ==> r[d] == 0.0
  {
    seq(n, _ => 0.0)
  }

  function Square(a: real): (r: real)
    ensures r >= 0.0
  {
    a * a
  }

  /**
   * The squared Euclidean distance, sum over d of (x[d] - y[d])^2.
   * euclidean_dist returns its square root; since the square root is
   * strictly monotone on non-negative reals, every comparison between
   * distances has the same outcome on squared distances.
   */
  function SqDist(x: Row, y: Row): (r: real)
    requires |x| == |y|
    ensures r >= 0.0
    decreases |x|
  {
    if |x| == 0 then 0.0
    else
      var n := |x| - 1;
      SqDist(x[..n], y[..n]) + Square(x[n] - y[n])
  }

  /** A row is at distance 0 from itself. */
  lemma {:induction false} SqDistSelf(x: Row)
    ensures SqDist(x, x) == 0.0
    decreases |x|
  {
    if |x| > 0 {
      SqDistSelf(x[..|x| - 1]);
    }
  }

  /** The distance does not depend on the order of its arguments. */
  lemma {:induction false} SqDistSymmetric(x: Row, y: Row)
    requires |x| == |y|
    ensures SqDist(x, y) == SqDist(y, x)
    decreases |x|
  {
    if |x| > 0 {
      SqDistSymmetric(x[..|x| - 1], y[..|x| - 1]);
      assert Square(x[|x| - 1] - y[|x| - 1]) == Square(y[|x| - 1] - x[|x| - 1]);
    }
  }
}
