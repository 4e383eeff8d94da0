/**
 * The movement smoother: a queue of the last few drag deltas and their
 * recency-weighted average.
 */
module Smoothing {
  /** `buffer_size`: at most this many samples are kept. */
  const BufferSize: nat := 3

  /** One drag delta and the time (in milliseconds) it was recorded. */
  datatype Sample = Sample(dx: real, dy: real, time: real)

  /** `add_movement_to_buffer` on the queue: append, then drop the oldest beyond capacity. */
  function Pushed(buffer: seq<Sample>, s: Sample): (r: seq<Sample>)
    requires |buffer| <= BufferSize
    ensures |r| == if |buffer| < BufferSize then |buffer| + 1 else BufferSize
    ensures r[|r| - 1] == s
    ensures r == (buffer + [s])[|buffer| + 1 - |r|..]
  {
    var b := buffer + [s];
    if |b| > BufferSize then b[1..] else b
  }

  /** The weights of a buffer of n samples: the sample at index i weighs (i + 1) / n. */
  function Weights(n: nat): (ws: seq<real>)
    ensures |ws| == n
    ensures forall i :: 0 <= i < n ==> ws[i] > 0.0
  {
    seq(n, i requires 0 <= i < n => (i + 1) as real / n as real)
  }

  function Dxs(buffer: seq<Sample>): (vs: seq<real>)
    ensures |vs| == |buffer| && forall i :: 0 <= i < |buffer| ==> vs[i] == buffer[i].dx
  {
    seq(|buffer|, i requires 0 <= i < |buffer| => buffer[i].dx)
  }

  function Dys(buffer: seq<Sample>): (vs: seq<real>)
    ensures |vs| == |buffer| && forall i :: 0 <= i < |buffer| ==> vs[i] == buffer[i].dy
  {
    seq(|buffer|, i requires 0 <= i < |buffer| => buffer[i].dy)
  }

  /** Sum of the first k weights. */
  function Total(ws: seq<real>, k: nat): real
    requires k <= |ws|
  {
    if k == 0 then 0.0 else Total(ws, k - 1) + ws[k - 1]
  }

  /** Sum of the first k values, each times its weight. */
  function WeightedSum(vs: seq<real>, ws: seq<real>, k: nat): real
    requires k <= |vs| == |ws|
  {
    if k == 0 then 0.0 else WeightedSum(vs, ws, k - 1) + vs[k - 1] * ws[k - 1]
  }

  lemma {:induction false} TotalPositive(ws: seq<real>, k: nat)
    requires 0 < k <= |ws|
    requires forall i :: 0 <= i < |ws| ==> ws[i] > 0.0
    ensures Total(ws, k) > 0.0
  {
    if k > 1 {
      TotalPositive(ws, k - 1);
    }
  }

  /** The weighted average of `vs` under the smoother's weights. */
  function Average(vs: seq<real>): real
    requires vs != []
  {
    var ws := Weights(|vs|);
    TotalPositive(ws, |vs|);
    WeightedSum(vs, ws, |vs|) / Total(ws, |vs|)
  }

  /** The smoothed delta: (0, 0) for an empty buffer, otherwise the weighted averages. */
  function Smoothed(buffer: seq<Sample>): (real, real)
  {
    if buffer == [] then (0.0, 0.0) else (Average(Dxs(buffer)), Average(Dys(buffer)))
  }

  /** `get_smoothed_movement`: the loop accumulating weighted sums and the total weight. */
  method GetSmoothedMovement(buffer: seq<Sample>) returns (smoothDx: real, smoothDy: real)
    ensures (smoothDx, smoothDy) == Smoothed(buffer)
    ensures buffer == [] ==> smoothDx == 0.0 && smoothDy == 0.0
  {
    if buffer == [] {
      return 0.0, 0.0;
    }
    var totalWeight := 0.0;
    smoothDx, smoothDy := 0.0, 0.0;
    var n := |buffer|;
    ghost var ws, xs, ys := Weights(n), Dxs(buffer), Dys(buffer);
    for i := 0 to n
      invariant totalWeight == Total(ws, i)
      invariant smoothDx == WeightedSum(xs, ws, i)
      invariant smoothDy == WeightedSum(ys, ws, i)
    {
      var weight := (i + 1) as real / n as real;
      assert weight == ws[i];
      smoothDx := smoothDx + buffer[i].dx * weight;
      smoothDy := smoothDy + buffer[i].dy * weight;
      totalWeight := totalWeight + weight;
    }
    TotalPositive(ws, n);
    smoothDx := smoothDx / totalWeight;
    smoothDy := smoothDy / totalWeight;
  }

  /** Weighted sums of a constant d are d times the total weight. */
  lemma {:induction false} WeightedSumOfConstant(vs: seq<real>, ws: seq<real>, k: nat, d: real)
    requires k <= |vs| == |ws|
    requires forall i :: 0 <= i < |vs| ==> vs[i] == d
    ensures WeightedSum(vs, ws, k) == d * Total(ws, k)
  {
    if k > 0 {
      WeightedSumOfConstant(vs, ws, k - 1, d);
    }
  }

  lemma CancelScale(d: real, t: real)
    requires t > 0.0
    ensures d * t / t == d
  {
  }

  /** Averaging identical values gives that value back. */
  lemma AverageOfConstant(vs: seq<real>, d: real)
    requires vs != []
    requires forall i :: 0 <= i < |vs| ==> vs[i] == d
    ensures Average(vs) == d
  {
    var ws := Weights(|vs|);
    TotalPositive(ws, |vs|);
    WeightedSumOfConstant(vs, ws, |vs|, d);
    CancelScale(d, Total(ws, |vs|));
  }

  /** A buffer of identical deltas smooths to that very delta. */
  lemma SmoothedOfConstant(buffer: seq<Sample>, dx: real, dy: real)
    requires buffer != []
    requires forall i :: 0 <= i < |buffer| ==> buffer[i].dx == dx && buffer[i].dy == dy
    ensures Smoothed(buffer) == (dx, dy)
  {
    AverageOfConstant(Dxs(buffer), dx);
    AverageOfConstant(Dys(buffer), dy);
  }

  /** One accumulation step keeps a sum between lo and hi times its total weight. */
  lemma BoundsStep(lo: real, hi: real, s: real, t: real, v: real, w: real)
    requires lo * t <= s <= hi * t && lo <= v <= hi && 0.0 <= w
    ensures lo * (t + w) <= s + v * w <= hi * (t + w)
  {
    assert lo * w <= v * w <= hi * w;
    assert lo * (t + w) == lo * t + lo * w;
    assert hi * (t + w) == hi * t + hi * w;
  }

  /** Weighted sums stay between the smallest and the largest value times the total weight. */
  lemma {:induction false} WeightedSumBounds(vs: seq<real>, ws: seq<real>, k: nat, lo: real, hi: real)
    requires k <= |vs| == |ws|
    requires forall i :: 0 <= i < |vs| ==> lo <= vs[i] <= hi && 0.0 <= ws[i]
    ensures lo * Total(ws, k) <= WeightedSum(vs, ws, k) <= hi * Total(ws, k)
  {
    if k > 0 {
      WeightedSumBounds(vs, ws, k - 1, lo, hi);
      BoundsStep(lo, hi, WeightedSum(vs, ws, k - 1), Total(ws, k - 1), vs[k - 1], ws[k - 1]);
    }
  }

  /** Dividing a value bounded by lo * t and hi * t by t > 0 lands in [lo, hi]. */
  lemma QuotientBetween(s: real, t: real, lo: real, hi: real)
    requires t > 0.0 && lo * t <= s <= hi * t
    ensures lo <= s / t <= hi
  {
    assert s / t * t == s;
  }

  /** The average never leaves the range of the averaged values. */
  lemma AverageWithinRange(vs: seq<real>, lo: real, hi: real)
    requires vs != []
    requires forall i :: 0 <= i < |vs| ==> lo <= vs[i] <= hi
    ensures lo <= Average(vs) <= hi
  {
    var ws := Weights(|vs|);
    TotalPositive(ws, |vs|);
    WeightedSumBounds(vs, ws, |vs|, lo, hi);
    QuotientBetween(WeightedSum(vs, ws, |vs|), Total(ws, |vs|), lo, hi);
  }

  /**
   * The smoothed delta is a weighted average: it never leaves the range of the
   * buffered deltas, so smoothing cannot overshoot the motion it damps.
   */
  lemma SmoothedWithinRange(buffer: seq<Sample>, lo: real, hi: real)
    requires buffer != []
    requires forall i :: 0 <= i < |buffer| ==> lo <= buffer[i].dx <= hi && lo <= buffer[i].dy <= hi
    ensures lo <= Smoothed(buffer).0 <= hi
    ensures lo <= Smoothed(buffer).1 <= hi
  {
    AverageWithinRange(Dxs(buffer), lo, hi);
    AverageWithinRange(Dys(buffer), lo, hi);
  }
}
