/**
 * The state of DecimationFilter: its configuration (step, offset, limit)
 * and the per-run counters (index, kept), with the `ready` hook that starts
 * a new run. The rule deciding which point is kept lives in processOne and
 * decimate, which are not part of this model; only the density the class
 * comment promises, one point kept in every `step`, is stated, about any
 * keep pattern that meets it.
 */
module Decimation {

  /** The filter's fields as one value: its configuration and its counters. */
  datatype State = State(step: real, offset: nat, limit: nat, index: nat, kept: nat)

  /**
   * What `ready` does to the fields: the running index goes back to 0; the
   * kept count and the configuration stay as they were. A filter that has
   * kept points is therefore, after `ready`, not in the state of a new one.
   */
  function Reset(s: State): (r: State)
    ensures r.index == 0
    ensures r.kept == s.kept
    ensures r.step == s.step && r.offset == s.offset && r.limit == s.limit
  {
    s.(index := 0)
  }

  /** Calling `ready` twice leaves the filter as calling it once does. */
  lemma ResetIdempotent(s: State)
    ensures Reset(Reset(s)) == Reset(s)
  {
  }

  class DecimationFilter {
    var step: real
    var offset: nat
    var limit: nat
    var index: nat
    var kept: nat

    function Fields(): State
      reads this
    {
      State(step, offset, limit, index, kept)
    }

    /**
     * A new filter: both counters start at 0. The configuration is left for
     * the option handling to fill in.
     */
    constructor ()
      ensures index == 0 && kept == 0
    {
      index := 0;
      kept := 0;
    }

    /** ready: starts a run by resetting the running index, and only it. */
    method Ready()
      modifies this
      ensures Fields() == Reset(old(Fields()))
    {
      index := 0;
    }
  }

  /** The number of kept points in a keep/drop pattern. */
  function CountKept(keep: seq<bool>): (c: nat)
    ensures c <= |keep|
  {
    if keep == [] then 0 else CountKept(keep[..|keep| - 1]) + (if keep[|keep| - 1] then 1 else 0)
  }

  lemma {:induction false} CountKeptAppend(a: seq<bool>, b: seq<bool>)
    ensures CountKept(a + b) == CountKept(a) + CountKept(b)
    decreases |b|
  {
    if b == [] {
      assert a + b == a;
    } else {
      CountKeptAppend(a, b[..|b| - 1]);
      assert (a + b)[..|a + b| - 1] == a + b[..|b| - 1];
    }
  }

  /**
   * "One out of every step points": cut the point sequence into consecutive
   * blocks of `step` points; every full block has exactly one kept point and
   * the final, partial block at most one.
   */
  ghost function OneInEvery(keep: seq<bool>, step: nat): (b: bool)
    requires step >= 1
    ensures step == 1 ==> (b <==> CountKept(keep) == |keep|)
    decreases |keep|
  {
    if |keep| < step then CountKept(keep) <= 1
    else
      assert keep == keep[..step] + keep[step..];
      CountKeptAppend(keep[..step], keep[step..]);
      CountKept(keep[..step]) == 1 && OneInEvery(keep[step..], step)
  }

  /**
   * A pattern keeping one point in every `step` keeps one point per full
   * block, plus at most one from a final partial block: the kept count c
   * satisfies (c - 1) * step < |keep| < (c + 1) * step.
   */
  lemma {:induction false} OneInEveryBounds(keep: seq<bool>, step: nat)
    requires step >= 1 && OneInEvery(keep, step)
    ensures CountKept(keep) * step < |keep| + step
    ensures |keep| < (CountKept(keep) + 1) * step
    decreases |keep|
  {
    var c := CountKept(keep);
    if |keep| < step {
      if c == 0 {
        assert c * step == 0 && (c + 1) * step == step;
      } else {
        assert c == 1 && |keep| >= 1;
        assert c * step == step && (c + 1) * step == step + step;
      }
    } else {
      var rest := keep[step..];
      OneInEveryBounds(rest, step);
      assert keep == keep[..step] + rest;
      CountKeptAppend(keep[..step], rest);
      var c' := CountKept(rest);
      assert c == c' + 1;
      MulSucc(c', step);
      MulSucc(c' + 1, step);
    }
  }

  lemma MulSucc(a: nat, b: nat)
    ensures (a + 1) * b == a * b + b
  {
  }

  /** When the points fill m whole blocks of `step`, exactly m are kept. */
  lemma {:induction false} OneInEveryWholeBlocks(keep: seq<bool>, step: nat, m: nat)
    requires step >= 1 && OneInEvery(keep, step)
    requires |keep| == m * step
    ensures CountKept(keep) == m
    decreases m
  {
    if m == 0 {
      assert keep == [];
    } else {
      MulSucc(m - 1, step);
      var rest := keep[step..];
      assert keep == keep[..step] + rest;
      CountKeptAppend(keep[..step], rest);
      OneInEveryWholeBlocks(rest, step, m - 1);
    }
  }

  /** With step = 100, a file of 100 * m points keeps m of them: 1%. */
  lemma OnePercent(keep: seq<bool>, m: nat)
    requires |keep| == 100 * m && OneInEvery(keep, 100)
    ensures CountKept(keep) * 100 == |keep|
  {
    OneInEveryWholeBlocks(keep, 100, m);
  }
}
