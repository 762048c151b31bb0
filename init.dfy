/**
 * init_centroids: K initial centroids drawn without replacement from the
 * distinct rows of the data. The random draw is an input: `choice` holds the
 * indices into the distinct rows that the random source picked.
 */
module Init {
  import opened Wrappers
  import opened Matrix

  /** Why the initial centroids cannot be drawn. */
  datatype InitError = SampleLargerThanPopulation(requested: nat, population: nat)

  /**
   * The distinct rows of `X`, each exactly once, in order of first occurrence.
   * (np.unique sorts them; the order is immaterial here because the sample
   * indices are arbitrary.)
   */
  function UniqueRows(X: Mat): (u: Mat)
    ensures Distinct(u)
    ensures forall r :: r in u <==> r in X
    ensures |u| <= |X|
    decreases |X|
  {
    if |X| == 0 then []
    else
      var n := |X| - 1;
      var u' := UniqueRows(X[..n]);
      assert X == X[..n] + [X[n]];
      if X[n] in u' then u' else u' + [X[n]]
  }

  /** `choice` is a draw of K distinct indices out of 0 .. population - 1. */
  predicate IsSample(choice: seq<nat>, K: nat, population: nat) {
    |choice| == K && Distinct(choice) && forall k :: 0 <= k < K ==> choice[k] < population
  }

  /**
   * The initial centroids: the distinct rows picked by `choice`, in the
   * order of the draw. Fails when K exceeds the number of distinct rows,
   * since no draw without replacement exists then.
   */
  function InitCentroids(X: Mat, K: nat, choice: seq<nat>): (r: Result<Mat, InitError>)
    requires K <= |UniqueRows(X)| ==> IsSample(choice, K, |UniqueRows(X)|)
    ensures r.Err? <==> K > |UniqueRows(X)|
    ensures r.Err? ==> r.error == SampleLargerThanPopulation(K, |UniqueRows(X)|)
    ensures r.Ok? ==> |r.value| == K && Distinct(r.value)
    ensures r.Ok? ==> forall k :: 0 <= k < K ==> r.value[k] in X
  {
    var u := UniqueRows(X);
    if K > |u| then Err(SampleLargerThanPopulation(K, |u|))
    else Ok(seq(K, k requires 0 <= k < K => u[choice[k]]))
  }

  /** The initial centroids have the shape K x D of a K-row slice of X. */
  lemma InitCentroidsShape(X: Mat, D: nat, K: nat, choice: seq<nat>)
    requires IsMatrix(X, |X|, D)
    requires K <= |UniqueRows(X)| && IsSample(choice, K, |UniqueRows(X)|)
    ensures InitCentroids(X, K, choice).Ok?
    ensures IsMatrix(InitCentroids(X, K, choice).value, K, D)
  {
    var c := InitCentroids(X, K, choice).value;
    forall k | 0 <= k < K
      ensures |c[k]| == D
    {
      var i :| 0 <= i < |X| && X[i] == c[k];
    }
  }
}
