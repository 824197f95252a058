# PDAL plane-fit and decimation filters in Dafny

A model of two filters of the PDAL point-cloud library.

**`filters.planefit`** scores how flat each point's neighbourhood is. It uses the plane-fit criterion of Weyrich et al. (2004). For each point `i`, the filter:
1. queries the `knn + 1` nearest points and drops the first of them;
2. fits a plane through the remaining neighbours, using their centroid and the first eigenvector of their covariance;
3. writes `d / (d + d_bar)` into the `PlaneFit` dimension. Here `d` is the distance from `i` to that plane, and `d_bar` is the sum of the neighbours' distances divided by `knn`.

The points are split among `threads` workers. Each worker gets a contiguous range of point ids.

The model keeps these details of the code as they are:
- d_sum is divided by knn, not by the number of neighbours the query found;
- when d = d_bar = 0, the score written is 0 / 0, a NaN;
- a score of exactly 1 is possible, when d_bar = 0 < d;
- the first k-NN result is dropped, and it need not be the query point itself (another point may share its coordinates).

Whatever the Weyrich et al. (2004) criterion leads one to expect on these points, the model states what the code computes.

**`filters.decimation`** keeps one point in every `step`. Only its state is modelled: the configuration, the per-run counters and the `ready` hook that starts a run.

There are three modules:

- `PlaneFitPartition` (`plane_fit_partition.dfy`) models the chunk arithmetic of `PlaneFitFilter::filter`. It holds two versions of the per-worker range:
  - the source's ranges exactly as written;
  - the same ranges clamped to the point count.

  Lemmas cover the ceiling, contiguity, coverage and in-bounds conditions.
- `PlaneFit` (`plane_fit.dfy`) holds the following:
  - The per-point specification `PlaneFitOutcome`: skipped, failed, or a written score.
  - A `PointView` class with the coordinates, the `PlaneFit` column and every other dimension.
  - A `PlaneFitFilter` class whose `SetPlaneFit`, `RunWorker` and `Filter` methods update the view in place. They are proved against that specification.
  - Lemmas on the score's range, the `d_bar` divisor, independence from the sign of the normal, and independence from the order of the workers' writes.
- `Decimation` (`decimation.dfy`) holds the `DecimationFilter` class with its five fields, the constructor and `Ready`. It also states the class comment's density claim for any keep pattern that satisfies it.

The k-nearest-neighbour index, the centroid and covariance routines and the Eigen zero test and eigen solver are foreign code. They are the function-valued fields of a `Geometry`, each applied to the view's coordinates, which the filter never changes. A double result is a `Score`: a real number or `NaN`.

## Model

| member | source | states |
|---|---|---|
| `PlaneFitPartition.ChunkSize` | filters/PlaneFitFilter.cpp:86-88 | the chunk is the ceiling of npoints / threads: the smallest c with c * threads >= npoints; it never exceeds npoints; threads must be positive because the source divides by it |
| `PlaneFitPartition.AsWrittenRange` | filters/PlaneFitFilter.cpp:98-99 | worker t's range as the source computes it, [t * chunk, (t + 1) * chunk), or [t * chunk, npoints) for the last worker: every non-last worker is given exactly chunk ids, and the last one ends at npoints |
| `PlaneFitPartition.AsWrittenContiguous` | filters/PlaneFitFilter.cpp:98-99 | worker 0 starts at 0 and worker t at t * chunk; every non-last worker ends where worker t+1 starts; the last ends at npoints |
| `PlaneFitPartition.AsWrittenCoversOnce` | filters/PlaneFitFilter.cpp:91-101 | every id below npoints lies in exactly one worker's range (the owner is i / chunk, or the last worker), so setPlaneFit runs once per point |
| `PlaneFitPartition.AsWrittenInBounds` | filters/PlaneFitFilter.cpp:87-99 | all of the source's ranges end at or before npoints if and only if (threads - 1) * chunk <= npoints |
| `PlaneFitPartition.AsWrittenOverrun` | filters/PlaneFitFilter.cpp:98-99 | with 5 points and 4 threads, worker 2 gets [4, 6) and visits id 5, and the last worker gets the empty range [6, 5) |
| `PlaneFitPartition.WorkerRange` | filters/PlaneFitFilter.cpp:98-99 | the clamped range of worker t satisfies start <= end <= npoints |
| `PlaneFitPartition.WorkerRangesContiguous` | filters/PlaneFitFilter.cpp:91-101 | the clamped ranges tile [0, npoints) in worker order: the first starts at 0, each ends where the next starts, and the last ends at npoints |
| `PlaneFitPartition.WorkerRangeClampsAsWritten` | filters/PlaneFitFilter.cpp:98-99 | below npoints, a clamped range contains exactly the ids the source's range contains |
| `PlaneFitPartition.WorkerRangesCoverOnce` | filters/PlaneFitFilter.cpp:91-101 | every id below npoints lies in exactly one clamped range |
| `PlaneFitPartition.WorkerRangeAgreesWhenInBounds` | filters/PlaneFitFilter.cpp:87-99 | when (threads - 1) * chunk <= npoints, every clamped range equals the source's range |
| `PlaneFitPartition.SingleWorker` | filters/PlaneFitFilter.cpp:98-99 | with one thread (the default), the only worker visits [0, npoints) |
| `PlaneFit.AbsDistance` | filters/PlaneFitFilter.cpp:107-118 | absDistance is never negative and is the magnitude of normal . (p - centroid) |
| `PlaneFit.AbsDistanceNormalSign` | filters/PlaneFitFilter.cpp:107-118 | the distance is the same for a normal and its opposite |
| `PlaneFit.Neighbours` | filters/PlaneFitFilter.cpp:124-127 | the neighbour list is the k-NN result without its first element: one element shorter, with the rest in order, and ids still inside the view |
| `PlaneFit.SumDistances` | filters/PlaneFitFilter.cpp:159-163 | the accumulated d_sum is never negative, and is 0 for no neighbours |
| `PlaneFit.SumDistancesNormalSign` | filters/PlaneFitFilter.cpp:153-163 | d_sum is the same for the eigenvector and its opposite |
| `PlaneFit.MeanNeighbourDistance` | filters/PlaneFitFilter.cpp:164 | d_bar is never negative, and d_bar * knn equals d_sum: the divisor is knn, not the number of neighbours found |
| `PlaneFit.MeanBelowAverageWithFewNeighbours` | filters/PlaneFitFilter.cpp:159-164 | when fewer than knn neighbours were found and some lie off the plane, d_bar is strictly below their mean distance |
| `PlaneFit.Ratio` | filters/PlaneFitFilter.cpp:167 | d / (d + d_bar) is NaN exactly when d = d_bar = 0; otherwise it is a number r in [0, 1] with r * (d + d_bar) = d; it is 0 exactly when d = 0 < d_bar, and 1 exactly when d_bar = 0 < d |
| `PlaneFit.PlaneFitOutcome` | filters/PlaneFitFilter.cpp:120-168 | a score that setPlaneFit writes and that is a number lies in [0, 1] |
| `PlaneFit.PlaneFitNormalSign` | filters/PlaneFitFilter.cpp:150-167 | the outcome for a point is the same when the eigen solver returns the opposite normal |
| `PlaneFit.FilterResult` | filters/PlaneFitFilter.cpp:89-104 | the PlaneFit column once setPlaneFit has run on every point: same length; a point whose score was written holds that score, and every skipped or failed point keeps its old value |
| `PlaneFit.ApplyInOrder` | filters/PlaneFitFilter.cpp:89-104 | the PlaneFit column after setPlaneFit has run on the ids of a sequence, one call after the other (any interleaving of the workers' calls is such a sequence): same length, and every id that does not occur in the sequence keeps its old value |
| `PlaneFit.ApplyInOrderPointwise` | filters/PlaneFitFilter.cpp:89-104 | after setPlaneFit has run on the ids of any sequence, each point's value is its own update if it occurs in the sequence, and its old value if not, whatever the order and the repetitions |
| `PlaneFit.OrderIndependent` | filters/PlaneFitFilter.cpp:89-104 | any order that visits every point gives the same PlaneFit column, FilterResult, so the result does not depend on the threads or their interleaving |
| `PlaneFit.PlaneFitFilter.constructor` | filters/PlaneFitFilter.cpp:72-77 | the option defaults are knn = 8 and threads = 1 |
| `PlaneFit.PlaneFitFilter.SetPlaneFit` | filters/PlaneFitFilter.cpp:120-168 | for a zero covariance, nothing is written and no error is raised; for a failing eigen solver, the error is raised and nothing is written; otherwise the PlaneFit value at i becomes the score; in every case coordinates, other points and other dimensions are unchanged |
| `PlaneFit.PlaneFitFilter.RunWorker` | filters/PlaneFitFilter.cpp:93-97 | a worker writes no PlaneFit value outside its range; if it succeeds, every id in its range holds its update; if it fails, some id in its range failed, and every id in its range holds its old value or its update |
| `PlaneFit.PlaneFitFilter.Filter` | filters/PlaneFitFilter.cpp:84-105 | the stage fails if and only if some point's eigen decomposition fails; otherwise the PlaneFit column equals FilterResult, whatever the thread count; after an error, every PlaneFit value is its old value or its update; coordinates and other dimensions are unchanged |
| `Decimation.Reset` | filters/DecimationFilter.hpp:61-62 | ready sets the running index to 0 and keeps the kept count, step, offset and limit: a filter that has kept points does not return to the state of a new one |
| `Decimation.ResetIdempotent` | filters/DecimationFilter.hpp:61-62 | calling ready twice leaves the same state as calling it once |
| `Decimation.DecimationFilter.constructor` | filters/DecimationFilter.hpp:47-57 | a new filter has index = 0 and kept = 0 |
| `Decimation.DecimationFilter.Ready` | filters/DecimationFilter.hpp:61-62 | the filter's fields after ready are Reset of the fields before it |
| `Decimation.OneInEvery` | filters/DecimationFilter.hpp:43 | "one out of every step points": cut into consecutive blocks of step points, every full block keeps exactly one point and the final partial block at most one; with step = 1 this holds exactly when every point is kept |
| `Decimation.OneInEveryBounds` | filters/DecimationFilter.hpp:43 | a pattern that keeps one point in every step keeps c points with (c - 1) * step < n < (c + 1) * step |
| `Decimation.OneInEveryWholeBlocks` | filters/DecimationFilter.hpp:43 | when n = m * step, exactly m points are kept |
| `Decimation.OnePercent` | filters/DecimationFilter.hpp:43 | with step = 100 and a whole number of blocks, kept * 100 = n: 1% of the points |

## Findings

| source | as written | input that shows it | evidently intended | confidence | as-written member | corrected member |
|---|---|---|---|---|---|---|
| filters/PlaneFitFilter.cpp:98-99 | a non-last worker ends at (t + 1) * chunk_size without being clamped to npoints | npoints = 5, threads = 4: chunk 2, worker 2 gets [4, 6) and calls setPlaneFit(view, 5) on a point the view does not hold (also npoints = 1, threads = 3) | every worker's range lies inside [0, npoints) | not executed; the arithmetic is proved | `PlaneFitPartition.AsWrittenRange`, `PlaneFitPartition.AsWrittenOverrun` | `PlaneFitPartition.WorkerRange` |

`PlaneFitPartition.AsWrittenInBounds` gives the exact condition for the overrun: it happens when (threads - 1) * chunk > npoints. `PlaneFitPartition.WorkerRangeAgreesWhenInBounds` shows that the clamped ranges equal the source's ranges whenever there is no overrun. `PlaneFit.PlaneFitFilter.Filter` uses the clamped ranges.

## Left out

- `PlaneFit.PlaneFitFilter.Filter` runs the workers one after another, not as `std::thread`s. It uses the clamped ranges (see Findings). The source throws from inside a worker thread, which ends the process. Here the first failing point stops the run and is reported as an `Error` status. After an error, `Filter` states that every PlaneFit value is either its old value or its update, and `RunWorker` that a worker writes nothing outside its range. The thread interleavings are covered by `PlaneFit.OrderIndependent` instead.
- `PlaneFit.PlaneFitFilter.SetPlaneFit` requires knn >= 1. The source does not validate `m_knn`. knn = 0 queries one point and divides d_sum by 0. A negative knn divides d_sum by a negative number, so d_bar <= 0 and the written score can lie outside [0, 1] (d = 2 and d_bar = -1 give 2). The score bound is proved only for knn >= 1. `Filter` also requires threads >= 1, because line 87 divides by it.
- The KD3Index query, `math::computeCentroid`, `math::computeCovariance`, Eigen's `isZero` test and `SelfAdjointEigenSolver` are opaque fields of `Geometry`. The model assumes only that a query returns at least one id and only ids of the view. It does not state that the normal belongs to the smallest eigenvalue, nor the zero test's tolerance.
- Floating point: distances and scores are exact reals. Rounding, infinities and NaN coordinates are not modelled. NaN appears only as the 0 / 0 of the written score. Point ids and counts are unbounded naturals, so 64-bit overflow of t * chunk_size is not modelled.
- `addDimensions` (registering PlaneFit), `getName`, the plugin information, the `ProgramArgs` plumbing and the log message for a skipped point are glue. They are not modelled, apart from the option defaults.
- DecimationFilter: the bodies of `processOne`, `run`, `decimate`, `initialize` and `addArgs` are not part of this model. The rule that decides which point to keep, and the offset and limit handling, are therefore not modelled. The constructor leaves step, offset and limit unspecified, as the source's default constructor does. The line-43 density claim is stated only for integer steps and for an abstract keep pattern. The `PointTableRef` argument of `ready` is unused and left out.
- filters/MADFilter.hpp and filters/MongoExpressionFilter.hpp hold declarations only: no median computation and no expression evaluation is visible. They are not part of this model.
