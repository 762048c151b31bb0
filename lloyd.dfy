/**
 * run: Lloyd's iteration as a function of the starting centroids. Each round
 * assigns every point to its nearest centroid and recomputes the means; the
 * iteration stops after the first round whose new centroids are all-close to
 * the current ones, or after the round budget is spent.
 */
module Lloyd {
  import opened Matrix
  import opened Assign
  import opened Update
  import opened Score
  import opened Descent

  /** What run hands back, with the number of rounds it took and whether it stopped by convergence. */
  datatype Outcome = Outcome(centroids: Mat, assignment: seq<int>, rounds: nat, converged: bool)

  /**
   * The result of running at most n rounds from centroids C. The caller must
   * allow at least one round: with none, run would return an assignment it
   * never computed.
   */
  function RunFrom(X: Mat, D: nat, K: nat, C: Mat, n: nat): (o: Outcome)
    requires IsMatrix(X, |X|, D) && IsMatrix(C, K, D) && n >= 1
    ensures IsMatrix(o.centroids, K, D) && |o.assignment| == |X|
    ensures 1 <= o.rounds <= n
    ensures !o.converged ==> o.rounds == n
    ensures o.converged ==>
      && Conformable(X, o.centroids)
      && o.assignment == Assignment(X, o.centroids)
      && AllClose(o.centroids, NewCentroids(X, D, K, o.assignment))
    ensures !o.converged ==> o.centroids == NewCentroids(X, D, K, o.assignment)
    ensures forall i :: 0 <= i < |X| ==> if K == 0 then o.assignment[i] == 0 else 0 <= o.assignment[i] < K
    decreases n
  {
    SameColumnsConformable(X, C, D);
    var a := Assignment(X, C);
    var nc := NewCentroids(X, D, K, a);
    if AllClose(C, nc) then Outcome(C, a, 1, true)
    else if n == 1 then Outcome(nc, a, 1, false)
    else
      var o := RunFrom(X, D, K, nc, n - 1);
      o.(rounds := o.rounds + 1)
  }

  /** A round whose new centroids are all-close to the current ones ends the run. */
  lemma RunFromClose(X: Mat, D: nat, K: nat, C: Mat, n: nat)
    requires IsMatrix(X, |X|, D) && IsMatrix(C, K, D) && n >= 1
    ensures Conformable(X, C)
    ensures AllClose(C, NewCentroids(X, D, K, Assignment(X, C))) ==>
      RunFrom(X, D, K, C, n).centroids == C && RunFrom(X, D, K, C, n).assignment == Assignment(X, C)
  {
    SameColumnsConformable(X, C, D);
  }

  /** Otherwise, with no round left, the run ends with the new centroids. */
  lemma RunFromLast(X: Mat, D: nat, K: nat, C: Mat)
    requires IsMatrix(X, |X|, D) && IsMatrix(C, K, D)
    ensures Conformable(X, C)
    ensures var nc := NewCentroids(X, D, K, Assignment(X, C));
      !AllClose(C, nc) ==>
      RunFrom(X, D, K, C, 1).centroids == nc && RunFrom(X, D, K, C, 1).assignment == Assignment(X, C)
  {
    SameColumnsConformable(X, C, D);
  }

  /**
   * Otherwise the run goes on from the new centroids with one round fewer.
   * `m` is n - 1 passed on its own: callers hand in a variable holding it,
   * which keeps the proofs that use this lemma small.
   */
  lemma RunFromNext(X: Mat, D: nat, K: nat, C: Mat, n: nat, m: nat)
    requires IsMatrix(X, |X|, D) && IsMatrix(C, K, D) && n >= 2 && m == n - 1
    ensures Conformable(X, C)
    ensures var nc := NewCentroids(X, D, K, Assignment(X, C));
      !AllClose(C, nc) ==>
      RunFrom(X, D, K, C, n).centroids == RunFrom(X, D, K, nc, m).centroids
      && RunFrom(X, D, K, C, n).assignment == RunFrom(X, D, K, nc, m).assignment
  {
    SameColumnsConformable(X, C, D);
    var nc := NewCentroids(X, D, K, Assignment(X, C));
    if !AllClose(C, nc) {
      var o := RunFrom(X, D, K, nc, n - 1);
      assert RunFrom(X, D, K, C, n) == o.(rounds := o.rounds + 1);
    }
  }

  /** Starting from converged centroids, run stops after one round and changes nothing. */
  lemma RunStable(X: Mat, D: nat, K: nat, C: Mat, n: nat, m: nat)
    requires IsMatrix(X, |X|, D) && IsMatrix(C, K, D) && n >= 1 && m >= 1
    requires RunFrom(X, D, K, C, n).converged
    ensures var o := RunFrom(X, D, K, C, n);
      RunFrom(X, D, K, o.centroids, m) == Outcome(o.centroids, o.assignment, 1, true)
  {
  }

  /**
   * Over the whole run the inertia never goes up: the final centroids with
   * the final assignment score no worse than the starting centroids with
   * the first assignment.
   */
  lemma {:induction false} RunDoesNotIncreaseInertia(X: Mat, D: nat, K: nat, C: Mat, n: nat)
    requires IsMatrix(X, |X|, D) && IsMatrix(C, K, D) && n >= 1
    ensures Conformable(X, C) && Conformable(X, RunFrom(X, D, K, C, n).centroids)
    ensures var o := RunFrom(X, D, K, C, n);
      InertiaOf(X, o.centroids, o.assignment, K) <= InertiaOf(X, C, Assignment(X, C), K)
    decreases n
  {
    var o := RunFrom(X, D, K, C, n);
    SameColumnsConformable(X, C, D);
    SameColumnsConformable(X, o.centroids, D);
    var a := Assignment(X, C);
    var nc := NewCentroids(X, D, K, a);
    if K == 0 {
      // both sides are 0: without clusters no point is counted
      InertiaNoClusters(X, o.centroids, o.assignment);
      InertiaNoClusters(X, C, a);
    } else if !AllClose(C, nc) {
      UpdateDoesNotIncreaseInertia(X, D, K, C, a);
      if n > 1 {
        SameColumnsConformable(X, nc, D);
        RunDoesNotIncreaseInertia(X, D, K, nc, n - 1);
        AssignmentDoesNotIncreaseInertia(X, nc, a);
      }
    }
  }
}
