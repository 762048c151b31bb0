# k-means clustering engine, modelled in Dafny

This project models the `Kmeans` class of the k-means clustering repository
(`code/kmeans.py`). The engine holds a data matrix X of N points with D
coordinates each, a cluster count K, a round budget `max_iters` and the current
K x D centroids. It offers these operations:

- draw the initial centroids from the distinct rows of X;
- assign every point to its nearest centroid;
- recompute each centroid as the mean of its cluster, then test convergence
  with `np.allclose`;
- run Lloyd's iteration (assign, then recompute) until convergence or until
  the budget is spent;
- score a clustering by its inertia, the within-cluster sum of squared
  distances.

The model has nine modules, one per concern:

| module | file | contents |
|---|---|---|
| `Wrappers` | `wrappers.dfy` | `Option` and `Result` |
| `Matrix` | `matrix.dfy` | rows, matrices and their shapes; the squared Euclidean distance |
| `Init` | `init.dfy` | the distinct rows and the initial draw, including when the draw fails |
| `Assign` | `assign.dfy` | the assignment step of `closest_centroids`, as functions |
| `Update` | `update.dfy` | the update step of `compute_centroids` (cluster members, means, zero rows for empty clusters) and `np.allclose` |
| `Score` | `score.dfy` | inertia, summed per point and per cluster |
| `Descent` | `descent.dfy` | neither half of a round increases inertia |
| `Lloyd` | `lloyd.dfy` | `run` as a function of the starting centroids |
| `Engine` | `engine.dfy` | the class `Kmeans` |

In `Engine`, the class `Kmeans` holds the same fields as the Python object.
`centroids` is a mutable field. `closest_centroids`, `compute_centroids`, `run`
and `inertia` are methods with the same loops as the source. Each method is
proved against the functions of the other modules.

Modelling choices:

- Coordinates are mathematical reals.
- `euclidean_dist` returns a square root. The model compares squared
  distances (`Matrix.SqDist`) instead. The square root is strictly monotone on
  non-negative numbers, so every `dist < minimum_dist` test has the same
  outcome. `float('inf')` as the starting minimum becomes `None`.
- The random draw of `np.random.choice` is an input. `choice` is a sequence
  of K distinct indices into the distinct rows.
- `np.unique` sorts the distinct rows. `Init.UniqueRows` keeps them in order
  of first occurrence instead. Either order is a permutation of the other, and
  the draw ranges over every choice of distinct indices, so the set of possible
  initial centroids is the same.
- `D`, the number of columns of X, is an explicit field, because a sequence
  of length 0 does not carry it.

## Model

| member | source | states |
|---|---|---|
| Engine.Kmeans.constructor | code/kmeans.py:6-14 | The engine stores X, K and max_iters. Its centroids are the initial draw, a K x D matrix. |
| Engine.NewKmeans | code/kmeans.py:6-14 | Construction fails exactly when K exceeds the number of distinct rows, with that error. Otherwise it yields a fresh, valid engine whose fields are the arguments and whose centroids are the draw. |
| Init.UniqueRows | code/kmeans.py:21 | The distinct rows have no duplicates. A row occurs in them if and only if it occurs in X. There are at most N of them. |
| Init.InitCentroids | code/kmeans.py:21-25 | The draw fails if and only if K is larger than the number of distinct rows, with error `SampleLargerThanPopulation(K, population)`. Otherwise it yields K pairwise distinct centroids, each a row of X. |
| Init.InitCentroidsShape | code/kmeans.py:21-25 | A successful draw is a K x D matrix. |
| Matrix.SqDist | code/kmeans.py:36 | The squared distance is never negative. |
| Matrix.SqDistSelf | code/kmeans.py:36 | A row is at distance 0 from itself. |
| Matrix.SqDistSymmetric | code/kmeans.py:36 | The distance from x to y equals the distance from y to x. |
| Assign.AssignPoint | code/kmeans.py:47-55 | A point's entry is 0 when there are no centroids, the value `np.zeros` put there. Otherwise it is a centroid index. |
| Assign.NearestIn | code/kmeans.py:48-55 | After scanning n centroids, the scan has a best index if and only if n > 0, and that index is below n. |
| Assign.NearestInIsFirstNearest | code/kmeans.py:48-55 | The scan's index is a nearest centroid, and every centroid before it is strictly farther: ties go to the lowest index. |
| Assign.Assignment | code/kmeans.py:45-56 | The index array has one entry per point. Each entry is a centroid index, or 0 when there are no centroids. |
| Assign.AssignmentNearest | code/kmeans.py:45-56 | Every point is assigned the first of its nearest centroids. |
| Assign.FirstNearestUnique | code/kmeans.py:52-55 | At most one index is the first nearest centroid, so the tie-break determines the answer. |
| Assign.AssignmentCharacterized | code/kmeans.py:45-56 | Any index array that assigns each point its first nearest centroid equals the array `closest_centroids` returns. |
| Engine.ScanNearest | code/kmeans.py:48-55 | The inner loop returns the scan's index. With at least one centroid, that index is the first nearest centroid. |
| Engine.Kmeans.ClosestCentroids | code/kmeans.py:38-56 | The returned index array is the assignment of X to the current centroids. |
| Update.Mean | code/kmeans.py:73 | The mean has D coordinates. Each coordinate times the number of rows gives that coordinate's sum over the rows. |
| Update.Members | code/kmeans.py:71 | The cluster's rows form a matrix with as many rows as there are points of that index, and each of them is a row of X. |
| Update.NewCentroids | code/kmeans.py:69-73 | The new centroids form a K x D matrix. |
| Update.MembersColSum | code/kmeans.py:71-73 | Summing a coordinate over the cluster's rows gives the same total as summing it over the points of X with that index. |
| Update.NewCentroidsRow | code/kmeans.py:69-73 | An empty cluster gets the all-zero row. Otherwise each coordinate of the new centroid is the sum of that coordinate over the cluster's points divided by their number. |
| Update.IsClose | code/kmeans.py:74 | Equal values are close. Against a reference value of 0, only the absolute tolerance applies: a value is close to 0 if and only if it lies within 1e-8 of it. The test itself is abs(a - b) <= 1e-8 + 1e-5 * abs(b), with b the new centroid's coordinate. |
| Update.AllClose | code/kmeans.py:74 | Empty centroid matrices are all-close, so a run with K = 0 converges in its first round. By its definition, every coordinate pair must be close, with the new centroids as the reference. |
| Update.AllCloseAtZero | code/kmeans.py:74 | Where a new coordinate is 0, the current one must lie within 1e-8 of 0 for the test to pass. |
| Update.AllCloseReflexive | code/kmeans.py:74 | Any centroids are all-close to themselves. |
| Update.AllCloseNotSymmetric | code/kmeans.py:74 | The convergence test is not symmetric: the relative tolerance scales with the new centroids, so the order of the arguments matters. |
| Engine.Kmeans.ComputeCentroids | code/kmeans.py:58-78 | The method reports convergence exactly when the current centroids are all-close to the new ones. On convergence the centroids are kept. Otherwise they are replaced by the new ones. |
| Lloyd.RunFrom | code/kmeans.py:85-89 | A run takes between 1 and n rounds. If it does not converge, it takes all n rounds and ends with the means of its last assignment. If it converges, its assignment is the nearest-centroid assignment of its final centroids, and those centroids are all-close to their recomputed means. Every index is in 0 .. K-1, or 0 when K = 0. |
| Lloyd.RunFromClose | code/kmeans.py:86-88 | An unfolding of RunFrom by one round, used by the loop invariant of Engine.Kmeans.Run. A round that converges ends the run with the current centroids and their assignment. |
| Lloyd.RunFromLast | code/kmeans.py:85-89 | An unfolding of RunFrom by one round, used by the loop invariant of Engine.Kmeans.Run. A last allowed round that does not converge ends the run with the new centroids. |
| Lloyd.RunFromNext | code/kmeans.py:85-88 | An unfolding of RunFrom by one round, used by the loop invariant of Engine.Kmeans.Run. A round that does not converge leaves the rest of the run to continue from the new centroids, with one round fewer. The extra argument m is n - 1, passed separately to keep the proof small. |
| Lloyd.RunStable | code/kmeans.py:85-89 | Running again from the centroids of a converged run stops after one round, with the same centroids and assignment. |
| Lloyd.RunDoesNotIncreaseInertia | code/kmeans.py:85-89 | For every K, including 0, the final centroids with the final assignment have no larger inertia than the starting centroids with their nearest-centroid assignment. |
| Engine.Kmeans.Run | code/kmeans.py:80-89 | The method returns the centroids and assignment of `RunFrom` for the starting centroids and the budget max_iters. The engine keeps the returned centroids. |
| Score.InertiaOf | code/kmeans.py:97-105 | Inertia, summed point by point, is never negative. |
| Score.ClusterSSE | code/kmeans.py:102-104 | One cluster's sum of squared distances to its centroid is never negative. |
| Score.ByCluster | code/kmeans.py:97-105 | The cluster-by-cluster sum is never negative. |
| Score.ByClusterLast | code/kmeans.py:98-104 | The last point adds its squared distance to exactly the cluster it is assigned to, and adds nothing when its index is out of range. |
| Score.InertiaByCluster | code/kmeans.py:97-105 | The per-cluster sum that `inertia` accumulates equals the per-point inertia. |
| Score.InertiaNoClusters | code/kmeans.py:98 | With K = 0 the loop adds nothing, so the inertia is 0. |
| Score.InertiaPointwise | code/kmeans.py:97-105 | If every point's term is no larger under one assignment than under another, that assignment's inertia is no larger. |
| Score.InertiaLabelInvariant | code/kmeans.py:97-105 | Renumbering the clusters, moving each centroid and renaming each index alike, does not change the inertia. |
| Score.InertiaZeroWhenOnCentroids | code/kmeans.py:97-105 | When every assigned point lies exactly on its centroid, the inertia is 0. |
| Engine.Kmeans.Inertia | code/kmeans.py:91-105 | The method returns the sum over clusters 0 .. K-1 of the squared distances from each cluster's points to its given centroid. That sum is never negative. |
| Descent.ColMeanMinimizes | code/kmeans.py:73 | Along one coordinate, no value has a smaller sum of squared differences to the cluster's rows than their mean. |
| Descent.MeanMinimizesSSE | code/kmeans.py:73 | No point has a smaller total squared distance to a non-empty cluster's rows than their mean. |
| Descent.UpdateDoesNotIncreaseInertia | code/kmeans.py:69-73 | For a fixed assignment, the new centroids have no larger inertia than any K x D centroids. |
| Descent.AssignmentDoesNotIncreaseInertia | code/kmeans.py:45-56 | The nearest-centroid assignment has no larger inertia than any assignment into the centroid range. |
| Descent.RoundDoesNotIncreaseInertia | code/kmeans.py:85-87 | One round of assignment followed by the means has no larger inertia than the round's starting centroids under any assignment into 0 .. K-1. |

## Left out

- File and console I/O, and the song-feature pipeline of `code/song_clustering.py`, are not part of this model.
- The random source of `np.random.choice` is not modelled. The draw is a parameter.
- The sorted order of `np.unique` is not modelled. The distinct rows are kept in order of first occurrence.
- IEEE floating point is not modelled: rounding, NaN and infinities. Coordinates are exact reals.
- The square root of `euclidean_dist` is not computed. Only squared distances are compared, as explained above.
- `np.zeros_like` copies the dtype of the centroids. For an integer-typed X, the means would be truncated. The model has real coordinates only.
- A negative K is ruled out by the type `nat`. K = 0 is allowed: as the code does, the run then keeps an empty centroid matrix and reports convergence at once.
- numpy broadcasting and shape errors are not modelled. The index arrays given to `compute_centroids` and `inertia` must have one entry per point, and `inertia`'s centroids must have at least K rows of D coordinates.
- Engine.Kmeans.Run: requires max_iters >= 1. With a budget of 0, `run` reaches its return with `centroid_idx` unbound and raises an error. The model does not represent that failure.
- Engine.Kmeans.Inertia: its contract states the per-cluster sum the code accumulates. That this equals the per-point inertia is the separate lemma Score.InertiaByCluster.
