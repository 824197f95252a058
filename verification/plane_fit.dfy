/**
 * The plane-fit criterion of Weyrich et al. (2004) as PlaneFitFilter
 * computes it: for each point i, query the k+1 nearest points, drop the
 * first, fit a plane through the remaining neighbours, and write
 * d / (d + d_bar) to the PlaneFit dimension, where d is i's distance to the
 * plane and d_bar the neighbours' summed distance divided by knn.
 *
 * The spatial index and the linear algebra are foreign code; they enter the
 * model as the function-valued fields of a `Geometry`, each applied to the
 * coordinates of the view, which the filter never changes.
 */
module PlaneFit {
  import opened PlaneFitPartition

  datatype Option<T> = None | Some(value: T)

  /** Whether a call returned normally or raised the stage's error. */
  datatype Status = Ok | Error(message: string)

  type PointId = nat

  /** A position (the X, Y and Z dimensions of a point) or a direction. */
  datatype Vec3 = Vec3(x: real, y: real, z: real)

  datatype Matrix3 = Matrix3(row0: Vec3, row1: Vec3, row2: Vec3)

  /** A value of the PlaneFit dimension: a double that is a number or NaN. */
  datatype Score = Num(value: real) | NaN

  function Dot(a: Vec3, b: Vec3): real
  {
    a.x * b.x + a.y * b.y + a.z * b.z
  }

  function Minus(a: Vec3, b: Vec3): Vec3
  {
    Vec3(a.x - b.x, a.y - b.y, a.z - b.z)
  }

  function Negate(a: Vec3): Vec3
  {
    Vec3(-a.x, -a.y, -a.z)
  }

  /**
   * The foreign collaborators of setPlaneFit, each a function of the
   * view's coordinates:
   *  - neighbors(pts, i, k): the KD3Index query for the k nearest points to i;
   *  - centroid(pts, ids), covariance(pts, ids): math::computeCentroid and
   *    math::computeCovariance over the given ids;
   *  - isZero(B): Eigen's zero test of a matrix;
   *  - eigenSolve(B): None when the self-adjoint eigen solver reports failure,
   *    otherwise Some of the first column of its eigenvectors.
   */
  datatype Geometry = Geometry(
    neighbors: (seq<Vec3>, PointId, nat) -> seq<PointId>,
    centroid: (seq<Vec3>, seq<PointId>) -> Vec3,
    covariance: (seq<Vec3>, seq<PointId>) -> Matrix3,
    isZero: Matrix3 -> bool,
    eigenSolve: Matrix3 -> Option<Vec3>)

  predicate IdsIn(ids: seq<PointId>, n: nat)
  {
    forall k :: 0 <= k < |ids| ==> ids[k] < n
  }

  /** What the KD index returns for a point of the view: at least that point, and only points of the view. */
  predicate QueryResultValid(ni: seq<PointId>, n: nat)
  {
    |ni| >= 1 && IdsIn(ni, n)
  }

  /** The KD index answers every query for k points validly. */
  predicate IndexValid(geo: Geometry, pts: seq<Vec3>, k: nat)
  {
    forall i :: 0 <= i < |pts| ==> QueryResultValid(geo.neighbors(pts, i, k), |pts|)
  }

  /**
   * absDistance: the distance from p to the plane through `centroid` with
   * normal `normal`, |normal . (p - centroid)|.
   */
  function AbsDistance(p: Vec3, centroid: Vec3, normal: Vec3): (d: real)
    ensures d >= 0.0
    ensures d == Dot(normal, Minus(p, centroid)) || d == -Dot(normal, Minus(p, centroid))
  {
    var s := Dot(normal, Minus(p, centroid));
    if s < 0.0 then -s else s
  }

  /** The eigen solver fixes a normal only up to its sign; the distance does not depend on it. */
  lemma AbsDistanceNormalSign(p: Vec3, centroid: Vec3, normal: Vec3)
    ensures AbsDistance(p, centroid, Negate(normal)) == AbsDistance(p, centroid, normal)
  {
    var v := Minus(p, centroid);
    assert (-normal.x) * v.x == -(normal.x * v.x);
    assert (-normal.y) * v.y == -(normal.y * v.y);
    assert (-normal.z) * v.z == -(normal.z * v.z);
    assert Dot(Negate(normal), v) == -Dot(normal, v);
  }

  /**
   * The neighbour list: the query result without its first element (usually,
   * but not necessarily, the query point).
   */
  function Neighbours(ni: seq<PointId>): (nb: seq<PointId>)
    requires |ni| >= 1
    ensures |nb| == |ni| - 1
    ensures forall k :: 0 <= k < |nb| ==> nb[k] == ni[k + 1]
    ensures forall n: nat :: IdsIn(ni, n) ==> IdsIn(nb, n)
  {
    ni[1..]
  }

  /** d_sum after the loop has visited `ids` in order. */
  function SumDistances(pts: seq<Vec3>, ids: seq<PointId>, centroid: Vec3, normal: Vec3): (s: real)
    requires IdsIn(ids, |pts|)
    ensures s >= 0.0
    ensures ids == [] ==> s == 0.0
    decreases |ids|
  {
    if ids == [] then 0.0
    else SumDistances(pts, ids[..|ids| - 1], centroid, normal) + AbsDistance(pts[ids[|ids| - 1]], centroid, normal)
  }

  /** The summed distance, like each distance, does not depend on the sign of the normal. */
  lemma {:induction false} SumDistancesNormalSign(pts: seq<Vec3>, ids: seq<PointId>, centroid: Vec3, normal: Vec3)
    requires IdsIn(ids, |pts|)
    ensures SumDistances(pts, ids, centroid, Negate(normal)) == SumDistances(pts, ids, centroid, normal)
    decreases |ids|
  {
    if ids != [] {
      SumDistancesNormalSign(pts, ids[..|ids| - 1], centroid, normal);
      AbsDistanceNormalSign(pts[ids[|ids| - 1]], centroid, normal);
    }
  }

  /**
   * d_bar: the summed neighbour distance divided by knn, the configured
   * neighbour count, and not by the number of neighbours the query found.
   */
  function MeanNeighbourDistance(pts: seq<Vec3>, nb: seq<PointId>, centroid: Vec3, normal: Vec3, knn: int): (dBar: real)
    requires IdsIn(nb, |pts|) && knn >= 1
    ensures dBar >= 0.0
    ensures dBar * (knn as real) == SumDistances(pts, nb, centroid, normal)
  {
    SumDistances(pts, nb, centroid, normal) / (knn as real)
  }

  /**
   * When the query found fewer than knn neighbours (a view of at most knn
   * points), d_bar is strictly below the neighbours' actual mean distance
   * as soon as any neighbour lies off the plane.
   */
  lemma MeanBelowAverageWithFewNeighbours(pts: seq<Vec3>, nb: seq<PointId>, centroid: Vec3, normal: Vec3, knn: int)
    requires IdsIn(nb, |pts|) && 1 <= |nb| < knn
    requires SumDistances(pts, nb, centroid, normal) > 0.0
    ensures MeanNeighbourDistance(pts, nb, centroid, normal, knn) < SumDistances(pts, nb, centroid, normal) / (|nb| as real)
  {
    DivideByMore(SumDistances(pts, nb, centroid, normal), |nb| as real, knn as real);
  }

  lemma DivideByMore(s: real, m: real, k: real)
    requires s > 0.0 && 0.0 < m < k
    ensures s / k < s / m
  {
    var a, b := s / k, s / m;
    assert a * k == s && b * m == s;
    assert a * m < a * k by {
      assert a > 0.0;
    }
  }

  /**
   * The written value d / (d + d_bar) as a double: NaN when both distances
   * are 0 (0 / 0, which the source does not guard against), otherwise a
   * number in [0, 1] that is 0 exactly when the point lies on the plane and
   * 1 exactly when every neighbour does and the point does not.
   */
  function Ratio(d: real, dBar: real): (s: Score)
    requires d >= 0.0 && dBar >= 0.0
    ensures s.NaN? <==> d == 0.0 && dBar == 0.0
    ensures s.Num? ==> 0.0 <= s.value <= 1.0 && s.value * (d + dBar) == d
    ensures s == Num(0.0) <==> d == 0.0 && dBar > 0.0
    ensures s == Num(1.0) <==> d > 0.0 && dBar == 0.0
  {
    if d + dBar == 0.0 then NaN
    else
      var v := d / (d + dBar);
      assert v * (d + dBar) == d;
      assert dBar == 0.0 ==> v == 1.0;
      assert v == 1.0 ==> dBar == 0.0;
      Num(v)
  }

  /** What setPlaneFit does for one point. */
  datatype Outcome =
    | Skipped             // all-zero covariance: logged, nothing written
    | Failed              // the eigen solver failed: the stage's error is raised
    | Written(score: Score)

  /** The specification of setPlaneFit for point i of a view with coordinates pts. */
  function PlaneFitOutcome(pts: seq<Vec3>, i: PointId, knn: int, geo: Geometry): (o: Outcome)
    requires i < |pts| && knn >= 1
    requires QueryResultValid(geo.neighbors(pts, i, knn + 1), |pts|)
    ensures o.Written? && o.score.Num? ==> 0.0 <= o.score.value <= 1.0
  {
    var nb := Neighbours(geo.neighbors(pts, i, knn + 1));
    var centroid := geo.centroid(pts, nb);
    var b := geo.covariance(pts, nb);
    if geo.isZero(b) then Skipped
    else match geo.eigenSolve(b)
      case None => Failed
      case Some(normal) =>
        Written(Ratio(AbsDistance(pts[i], centroid, normal), MeanNeighbourDistance(pts, nb, centroid, normal, knn)))
  }

  /**
   * The score setPlaneFit writes does not change when the eigen solver
   * returns the opposite normal.
   */
  lemma PlaneFitNormalSign(pts: seq<Vec3>, i: PointId, knn: int, geo: Geometry, normal: Vec3)
    requires i < |pts| && knn >= 1
    requires QueryResultValid(geo.neighbors(pts, i, knn + 1), |pts|)
    requires geo.eigenSolve(geo.covariance(pts, Neighbours(geo.neighbors(pts, i, knn + 1)))) == Some(normal)
    ensures PlaneFitOutcome(pts, i, knn, geo)
         == PlaneFitOutcome(pts, i, knn, geo.(eigenSolve := (b: Matrix3) => if b == geo.covariance(pts, Neighbours(geo.neighbors(pts, i, knn + 1))) then Some(Negate(normal)) else geo.eigenSolve(b)))
  {
    var nb := Neighbours(geo.neighbors(pts, i, knn + 1));
    var centroid := geo.centroid(pts, nb);
    AbsDistanceNormalSign(pts[i], centroid, normal);
    SumDistancesNormalSign(pts, nb, centroid, normal);
  }

  /** The PlaneFit value of point i once setPlaneFit has run on it (unchanged unless written). */
  function Updated(pts: seq<Vec3>, pf: seq<Score>, i: PointId, knn: int, geo: Geometry): Score
    requires i < |pts| == |pf| && knn >= 1
    requires QueryResultValid(geo.neighbors(pts, i, knn + 1), |pts|)
  {
    match PlaneFitOutcome(pts, i, knn, geo)
    case Written(s) => s
    case _ => pf[i]
  }

  /**
   * The PlaneFit column once setPlaneFit has run on every point: a point
   * whose plane fit was written holds its new score, every other point keeps
   * the value it had.
   */
  function FilterResult(pts: seq<Vec3>, pf: seq<Score>, knn: int, geo: Geometry): (r: seq<Score>)
    requires |pts| == |pf| && knn >= 1 && IndexValid(geo, pts, knn + 1)
    ensures |r| == |pf|
    ensures forall i :: 0 <= i < |pf| && PlaneFitOutcome(pts, i, knn, geo).Written? ==>
      r[i] == PlaneFitOutcome(pts, i, knn, geo).score
    ensures forall i :: 0 <= i < |pf| && !PlaneFitOutcome(pts, i, knn, geo).Written? ==> r[i] == pf[i]
  {
    seq(|pf|, i requires 0 <= i < |pf| => Updated(pts, pf, i, knn, geo))
  }

  /**
   * The PlaneFit column after setPlaneFit has run on the ids of `order`, one
   * after the other: any interleaving of the workers' calls is such an order.
   */
  function ApplyInOrder(pts: seq<Vec3>, pf: seq<Score>, order: seq<PointId>, knn: int, geo: Geometry): (r: seq<Score>)
    requires |pts| == |pf| && knn >= 1 && IndexValid(geo, pts, knn + 1) && IdsIn(order, |pts|)
    ensures |r| == |pf|
    ensures forall j :: 0 <= j < |pf| && j !in order ==> r[j] == pf[j]
    decreases |order|
  {
    if order == [] then pf
    else ApplyInOrder(pts, pf[order[0] := Updated(pts, pf, order[0], knn, geo)], order[1..], knn, geo)
  }

  /**
   * Each point's final value depends only on whether it was visited, not on
   * when, nor on how many times.
   */
  lemma {:induction false} ApplyInOrderPointwise(pts: seq<Vec3>, pf: seq<Score>, order: seq<PointId>, knn: int, geo: Geometry, j: PointId)
    requires |pts| == |pf| && knn >= 1 && IndexValid(geo, pts, knn + 1) && IdsIn(order, |pts|)
    requires j < |pf|
    ensures ApplyInOrder(pts, pf, order, knn, geo)[j] == if j in order then Updated(pts, pf, j, knn, geo) else pf[j]
    decreases |order|
  {
    if order != [] {
      var i := order[0];
      var pf1 := pf[i := Updated(pts, pf, i, knn, geo)];
      ApplyInOrderPointwise(pts, pf1, order[1..], knn, geo, j);
      assert Updated(pts, pf1, j, knn, geo) == Updated(pts, pf, j, knn, geo);
      assert j in order <==> j == i || j in order[1..];
    }
  }

  /**
   * Whatever the number of workers and however their calls interleave, once
   * every point has been visited the PlaneFit column is FilterResult.
   */
  lemma OrderIndependent(pts: seq<Vec3>, pf: seq<Score>, order: seq<PointId>, knn: int, geo: Geometry)
    requires |pts| == |pf| && knn >= 1 && IndexValid(geo, pts, knn + 1) && IdsIn(order, |pts|)
    requires forall i :: 0 <= i < |pts| ==> i in order
    ensures ApplyInOrder(pts, pf, order, knn, geo) == FilterResult(pts, pf, knn, geo)
  {
    forall j | 0 <= j < |pf|
      ensures ApplyInOrder(pts, pf, order, knn, geo)[j] == FilterResult(pts, pf, knn, geo)[j]
    {
      ApplyInOrderPointwise(pts, pf, order, knn, geo, j);
    }
  }

  /**
   * The dimensions of a PointView that the filter touches: the coordinates
   * it reads, the PlaneFit dimension it writes, and every other dimension of
   * the layout, by name.
   */
  class PointView {
    var xyz: seq<Vec3>
    var planeFit: seq<Score>
    var otherDims: map<string, seq<real>>
  }

  class PlaneFitFilter {
    var knn: int
    var threads: int

    /** A filter with the option defaults: knn = 8, threads = 1. */
    constructor ()
      ensures knn == 8 && threads == 1
    {
      knn := 8;
      threads := 1;
    }

    /**
     * setPlaneFit: computes point i's score and writes it to PlaneFit at i;
     * skips the point when the covariance is zero; raises an error when the
     * eigen solver fails. No other point and no other dimension changes.
     */
    method SetPlaneFit(view: PointView, i: PointId, geo: Geometry) returns (status: Status)
      requires knn >= 1
      requires i < |view.xyz| == |view.planeFit|
      requires QueryResultValid(geo.neighbors(view.xyz, i, knn + 1), |view.xyz|)
      modifies view
      ensures view.xyz == old(view.xyz) && view.otherDims == old(view.otherDims)
      ensures status.Error? <==> PlaneFitOutcome(view.xyz, i, knn, geo).Failed?
      ensures match PlaneFitOutcome(view.xyz, i, knn, geo)
        case Written(s) => view.planeFit == old(view.planeFit)[i := s]
        case _ => view.planeFit == old(view.planeFit)
    {
      var ni := geo.neighbors(view.xyz, i, knn + 1);
      var neighbors := Neighbours(ni);
      var centroid := geo.centroid(view.xyz, neighbors);
      var b := geo.covariance(view.xyz, neighbors);
      if geo.isZero(b) {
        // The source logs that point i is skipped.
        return Ok;
      }
      var solved := geo.eigenSolve(b);
      if solved.None? {
        return Error("Cannot perform eigen decomposition.");
      }
      var normal := solved.value;
      var d := AbsDistance(view.xyz[i], centroid, normal);
      var dSum := 0.0;
      for k := 0 to |neighbors|
        invariant dSum == SumDistances(view.xyz, neighbors[..k], centroid, normal)
      {
        assert neighbors[..k + 1][..k] == neighbors[..k];
        dSum := dSum + AbsDistance(view.xyz[neighbors[k]], centroid, normal);
      }
      assert neighbors[..|neighbors|] == neighbors;
      var dBar := dSum / (knn as real);
      view.planeFit := view.planeFit[i := Ratio(d, dBar)];
      status := Ok;
    }

    /**
     * One worker: setPlaneFit on every id of r in increasing order, stopping
     * at the first error. It writes no PlaneFit value outside r.
     */
    method RunWorker(view: PointView, r: Range, geo: Geometry) returns (status: Status)
      requires knn >= 1
      requires r.end <= |view.xyz| == |view.planeFit|
      requires IndexValid(geo, view.xyz, knn + 1)
      modifies view
      ensures view.xyz == old(view.xyz) && view.otherDims == old(view.otherDims)
      ensures |view.planeFit| == |old(view.planeFit)|
      ensures forall j :: 0 <= j < |view.planeFit| && !Contains(r, j) ==> view.planeFit[j] == old(view.planeFit)[j]
      ensures status.Ok? ==> forall j: nat :: Contains(r, j) ==>
        view.planeFit[j] == Updated(view.xyz, old(view.planeFit), j, knn, geo) && !PlaneFitOutcome(view.xyz, j, knn, geo).Failed?
      ensures status.Error? ==> exists j: nat :: Contains(r, j) && PlaneFitOutcome(view.xyz, j, knn, geo).Failed?
      ensures status.Error? ==> forall j: nat :: Contains(r, j) ==>
        view.planeFit[j] == old(view.planeFit)[j] || view.planeFit[j] == Updated(view.xyz, old(view.planeFit), j, knn, geo)
    {
      var i := r.start;
      while i < r.end
        invariant r.start <= i && (i <= r.end || i == r.start)
        invariant view.xyz == old(view.xyz) && view.otherDims == old(view.otherDims)
        invariant |view.planeFit| == |old(view.planeFit)|
        invariant forall j :: 0 <= j < |view.planeFit| && !(r.start <= j < i) ==> view.planeFit[j] == old(view.planeFit)[j]
        invariant forall j :: r.start <= j < i ==>
          view.planeFit[j] == Updated(view.xyz, old(view.planeFit), j, knn, geo) && !PlaneFitOutcome(view.xyz, j, knn, geo).Failed?
      {
        status := SetPlaneFit(view, i, geo);
        if status.Error? {
          return;
        }
        i := i + 1;
      }
      status := Ok;
    }

    /**
     * filter: splits the points among `threads` workers and runs each on its
     * range. It either writes every point's PlaneFit value, as FilterResult
     * says whatever the number of workers, or reports the error of a point
     * whose eigen decomposition failed. Coordinates and all other dimensions
     * are left as they were.
     */
    method Filter(view: PointView, geo: Geometry) returns (status: Status)
      requires knn >= 1 && threads >= 1
      requires |view.planeFit| == |view.xyz|
      requires IndexValid(geo, view.xyz, knn + 1)
      modifies view
      ensures view.xyz == old(view.xyz) && view.otherDims == old(view.otherDims)
      ensures |view.planeFit| == |view.xyz|
      ensures status.Error? <==> exists i :: 0 <= i < |view.xyz| && PlaneFitOutcome(view.xyz, i, knn, geo).Failed?
      ensures status.Ok? ==> view.planeFit == FilterResult(view.xyz, old(view.planeFit), knn, geo)
      ensures status.Error? ==> forall j :: 0 <= j < |view.planeFit| ==>
        view.planeFit[j] == old(view.planeFit)[j] || view.planeFit[j] == Updated(view.xyz, old(view.planeFit), j, knn, geo)
    {
      var npoints := |view.xyz|;
      var t := 0;
      while t < threads
        invariant 0 <= t <= threads
        invariant view.xyz == old(view.xyz) && view.otherDims == old(view.otherDims)
        invariant |view.planeFit| == npoints
        invariant forall j :: Boundary(npoints, threads, t) <= j < npoints ==> view.planeFit[j] == old(view.planeFit)[j]
        invariant forall j :: 0 <= j < Boundary(npoints, threads, t) ==>
          view.planeFit[j] == Updated(view.xyz, old(view.planeFit), j, knn, geo) && !PlaneFitOutcome(view.xyz, j, knn, geo).Failed?
      {
        WorkerRangesContiguous(npoints, threads, t);
        var r := WorkerRange(npoints, threads, t);
        ghost var before := view.planeFit;
        status := RunWorker(view, r, geo);
        forall j | r.start <= j < r.end
          ensures Updated(view.xyz, before, j, knn, geo) == Updated(view.xyz, old(view.planeFit), j, knn, geo)
        {
        }
        if status.Error? {
          return;
        }
        t := t + 1;
      }
      status := Ok;
      assert Boundary(npoints, threads, t) == npoints;
    }
  }
}
