/**
 * How PlaneFitFilter::filter splits the point ids [0, npoints) among its
 * worker threads: each worker gets a chunk of ceil(npoints / threads) ids,
 * and the last worker's range is made to end at npoints.
 *
 * Two versions of the per-worker range are modelled: `AsWrittenRange`, the
 * bounds exactly as the source computes them, and `WorkerRange`, the same
 * bounds clamped to npoints. They agree whenever the source's ranges stay
 * inside [0, npoints) (`WorkerRangeAgreesWhenInBounds`); for a few points and
 * many threads they do not (`AsWrittenOverrun`).
 */
module PlaneFitPartition {

  /** The half-open range [start, end) of point ids one worker visits. */
  datatype Range = Range(start: nat, end: nat)

  /** The worker loop `for (i = start; i < end; i++)` visits i. */
  predicate Contains(r: Range, i: nat)
  {
    r.start <= i < r.end
  }

  function Min(a: nat, b: nat): nat
  {
    if a <= b then a else b
  }

  lemma MulMonotone(a: nat, b: nat, c: nat)
    requires a <= b
    ensures a * c <= b * c
  {
    assert b * c == a * c + (b - a) * c;
  }

  /**
   * The number of ids per worker: npoints / threads, plus one when the
   * division leaves a remainder. It is the ceiling of npoints / threads,
   * i.e. the smallest c with c * threads >= npoints.
   */
  function ChunkSize(npoints: nat, threads: nat): (c: nat)
    requires threads >= 1
    ensures c * threads >= npoints
    ensures c == 0 || (c - 1) * threads < npoints
    ensures c <= npoints
  {
    var q := npoints / threads;
    CeilingFacts(npoints, threads, q, npoints % threads);
    if npoints % threads != 0 then q + 1 else q
  }

  lemma CeilingFacts(n: nat, d: nat, q: nat, r: nat)
    requires d >= 1 && r < d && n == q * d + r
    ensures r != 0 ==> (q + 1) * d >= n && q * d < n && q + 1 <= n
    ensures r == 0 ==> q * d >= n && (q == 0 || (q - 1) * d < n) && q <= n
  {
    MulMonotone(1, d, q);
    assert (q + 1) * d == q * d + d;
    if q != 0 {
      assert (q - 1) * d == q * d - d;
    }
  }

  /**
   * Worker t's range exactly as the source computes it: every worker but the
   * last is given a full chunk of ids, and the last one ends at npoints.
   */
  function AsWrittenRange(npoints: nat, threads: nat, t: nat): (r: Range)
    requires threads >= 1 && t < threads
    ensures t + 1 < threads ==> r.end == r.start + ChunkSize(npoints, threads)
    ensures t + 1 == threads ==> r.end == npoints
  {
    var c := ChunkSize(npoints, threads);
    Range(t * c, if t + 1 == threads then npoints else (t + 1) * c)
  }

  /** Worker t's range with both bounds clamped to npoints. */
  function WorkerRange(npoints: nat, threads: nat, t: nat): (r: Range)
    requires threads >= 1 && t < threads
    ensures r.start <= r.end <= npoints
  {
    var c := ChunkSize(npoints, threads);
    MulMonotone(t, t + 1, c);
    Range(Min(t * c, npoints), if t + 1 == threads then npoints else Min((t + 1) * c, npoints))
  }

  /** The worker that owns point i: i / chunk, except that the last worker takes the rest. */
  function Owner(npoints: nat, threads: nat, i: nat): (t: nat)
    requires threads >= 1 && i < npoints
    ensures t < threads
  {
    var c := ChunkSize(npoints, threads);
    if i / c < threads - 1 then i / c else threads - 1
  }

  lemma DivBounds(i: nat, c: nat)
    requires c >= 1
    ensures (i / c) * c <= i < (i / c + 1) * c
  {
    assert i == (i / c) * c + i % c;
    assert (i / c + 1) * c == (i / c) * c + c;
  }

  /**
   * The source's ranges are contiguous: worker 0 starts at 0, worker t starts
   * at t * chunk, every non-last worker ends where the next one starts and
   * the last one ends at npoints.
   */
  lemma AsWrittenContiguous(npoints: nat, threads: nat, t: nat)
    requires threads >= 1 && t < threads
    ensures AsWrittenRange(npoints, threads, 0).start == 0
    ensures AsWrittenRange(npoints, threads, t).start == t * ChunkSize(npoints, threads)
    ensures t + 1 < threads ==>
      AsWrittenRange(npoints, threads, t).end == AsWrittenRange(npoints, threads, t + 1).start
    ensures t + 1 == threads ==> AsWrittenRange(npoints, threads, t).end == npoints
  {
  }

  /**
   * Every point id below npoints lies in exactly one of the source's ranges,
   * so every point is handed to setPlaneFit once.
   */
  lemma AsWrittenCoversOnce(npoints: nat, threads: nat, i: nat)
    requires threads >= 1 && i < npoints
    ensures Contains(AsWrittenRange(npoints, threads, Owner(npoints, threads, i)), i)
    ensures forall t :: 0 <= t < threads && Contains(AsWrittenRange(npoints, threads, t), i) ==>
      t == Owner(npoints, threads, i)
  {
    var c := ChunkSize(npoints, threads);
    var o := Owner(npoints, threads, i);
    DivBounds(i, c);
    if i / c < threads - 1 {
      assert o == i / c;
    } else {
      MulMonotone(threads - 1, i / c, c);
    }
    forall t | 0 <= t < threads && Contains(AsWrittenRange(npoints, threads, t), i)
      ensures t == o
    {
      if t < o {
        MulMonotone(t + 1, o, c);
      } else if o < t {
        MulMonotone(o + 1, t, c);
      }
    }
  }

  /**
   * The source's ranges all end at or before npoints exactly when the
   * second-to-last worker's end, (threads - 1) * chunk, does not pass npoints.
   */
  lemma AsWrittenInBounds(npoints: nat, threads: nat)
    requires threads >= 1
    ensures (forall t :: 0 <= t < threads ==> AsWrittenRange(npoints, threads, t).end <= npoints)
        <==> (threads - 1) * ChunkSize(npoints, threads) <= npoints
  {
    var c := ChunkSize(npoints, threads);
    if (threads - 1) * c <= npoints {
      forall t | 0 <= t < threads
        ensures AsWrittenRange(npoints, threads, t).end <= npoints
      {
        if t + 1 < threads {
          MulMonotone(t + 1, threads - 1, c);
        }
      }
    } else {
      assert threads >= 2;
      assert AsWrittenRange(npoints, threads, threads - 2).end == (threads - 1) * c;
    }
  }

  /**
   * With 5 points and 4 threads the chunk is 2 and worker 2 is given [4, 6):
   * it visits id 5, which is not a point of the view.
   */
  lemma AsWrittenOverrun()
    ensures ChunkSize(5, 4) == 2
    ensures AsWrittenRange(5, 4, 2) == Range(4, 6)
    ensures Contains(AsWrittenRange(5, 4, 2), 5)
    ensures AsWrittenRange(5, 4, 3) == Range(6, 5)
  {
  }

  /** Where worker t starts, and npoints once every worker has run. */
  function Boundary(npoints: nat, threads: nat, t: nat): nat
    requires threads >= 1 && t <= threads
  {
    if t == threads then npoints else WorkerRange(npoints, threads, t).start
  }

  /**
   * The clamped ranges tile [0, npoints) in order: worker 0 starts at 0, each
   * worker ends where the next starts, and the last ends at npoints.
   */
  lemma WorkerRangesContiguous(npoints: nat, threads: nat, t: nat)
    requires threads >= 1 && t < threads
    ensures Boundary(npoints, threads, 0) == 0
    ensures WorkerRange(npoints, threads, t).start == Boundary(npoints, threads, t)
    ensures WorkerRange(npoints, threads, t).end == Boundary(npoints, threads, t + 1)
  {
  }

  /** Below npoints, clamping changes nothing about which ids a range contains. */
  lemma WorkerRangeClampsAsWritten(npoints: nat, threads: nat, t: nat, i: nat)
    requires threads >= 1 && t < threads && i < npoints
    ensures Contains(WorkerRange(npoints, threads, t), i) <==> Contains(AsWrittenRange(npoints, threads, t), i)
  {
  }

  /** Every point id below npoints lies in exactly one clamped range. */
  lemma WorkerRangesCoverOnce(npoints: nat, threads: nat, i: nat)
    requires threads >= 1 && i < npoints
    ensures Contains(WorkerRange(npoints, threads, Owner(npoints, threads, i)), i)
    ensures forall t :: 0 <= t < threads && Contains(WorkerRange(npoints, threads, t), i) ==>
      t == Owner(npoints, threads, i)
  {
    AsWrittenCoversOnce(npoints, threads, i);
    forall t | 0 <= t < threads
      ensures Contains(WorkerRange(npoints, threads, t), i) <==> Contains(AsWrittenRange(npoints, threads, t), i)
    {
      WorkerRangeClampsAsWritten(npoints, threads, t, i);
    }
  }

  /**
   * When (threads - 1) * chunk <= npoints the source's ranges already lie in
   * [0, npoints], and clamping leaves every one of them as it is.
   */
  lemma WorkerRangeAgreesWhenInBounds(npoints: nat, threads: nat, t: nat)
    requires threads >= 1 && t < threads
    requires (threads - 1) * ChunkSize(npoints, threads) <= npoints
    ensures WorkerRange(npoints, threads, t) == AsWrittenRange(npoints, threads, t)
  {
    var c := ChunkSize(npoints, threads);
    MulMonotone(t, threads - 1, c);
    if t + 1 < threads {
      MulMonotone(t + 1, threads - 1, c);
    }
  }

  /** With the default of one thread, the single worker visits [0, npoints). */
  lemma SingleWorker(npoints: nat)
    ensures AsWrittenRange(npoints, 1, 0) == Range(0, npoints)
    ensures WorkerRange(npoints, 1, 0) == Range(0, npoints)
  {
  }
}
