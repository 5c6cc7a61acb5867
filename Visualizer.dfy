/** The histogram a visualizer keeps: its initial zero bars, the in-place
    smoothing pass and the linear bucketing of spectrum bins into bars. */
module Visualization {
  import opened Common
  import AudioProcessor

  /** `n` bars of height zero. */
  function Zeros(n: nat): (z: seq<int>)
    ensures |z| == n && forall k :: 0 <= k < n ==> z[k] == 0
  {
    seq(n, _ => 0)
  }

  // ---------------------------------------------------------------------------
  // Smoothing
  // ---------------------------------------------------------------------------

  /** One step of the smoothing pass: bar `i`, if zero, becomes the truncated mean of its neighbours. */
  function SmoothStep(b: seq<int>, i: int): (r: seq<int>)
    requires 1 <= i < |b| - 1
    ensures |r| == |b| && forall k :: 0 <= k < |b| && k != i ==> r[k] == b[k]
    ensures r[i] == if b[i] == 0 then TruncDiv(b[i - 1] + b[i + 1], 2) else b[i]
  {
    if b[i] == 0 then b[i := TruncDiv(b[i - 1] + b[i + 1], 2)] else b
  }

  /** The bars after the steps for bars 1 to `i - 1`, taken left to right on the same bars. */
  function SmoothedUpTo(b: seq<int>, i: int): (r: seq<int>)
    requires 1 <= i && (i == 1 || i < |b|)
    ensures |r| == |b|
    decreases i
  {
    if i == 1 then b else SmoothStep(SmoothedUpTo(b, i - 1), i - 1)
  }

  /** The histogram `b` after smoothing its first `n` bars: the interior bars 1 to `n - 2`, in order. */
  function Smoothed(b: seq<int>, n: int): (r: seq<int>)
    requires n <= |b|
    ensures |r| == |b|
  {
    if n < 3 then b else SmoothedUpTo(b, n - 1)
  }

  /** The first `i` steps change nothing at bar 0 or from bar `i` on. */
  lemma {:induction false} SmoothedUpToKeepsRest(b: seq<int>, i: int)
    requires 1 <= i && (i == 1 || i < |b|)
    ensures forall k :: 0 <= k < |b| && (k == 0 || k >= i) ==> SmoothedUpTo(b, i)[k] == b[k]
    decreases i
  {
    if i > 1 {
      SmoothedUpToKeepsRest(b, i - 1);
    }
  }

  /** The first `i` steps keep every non-zero bar. */
  lemma {:induction false} SmoothedUpToKeepsNonZero(b: seq<int>, i: int)
    requires 1 <= i && (i == 1 || i < |b|)
    ensures forall k :: 0 <= k < |b| && b[k] != 0 ==> SmoothedUpTo(b, i)[k] == b[k]
    decreases i
  {
    if i > 1 {
      SmoothedUpToKeepsNonZero(b, i - 1);
      SmoothedUpToKeepsRest(b, i - 1);
    }
  }

  /**
   * After the first `i` steps, each zero bar below `i` holds the truncated
   * mean of its left neighbour as already smoothed and its right neighbour
   * as it was.
   */
  lemma {:induction false} SmoothedUpToFills(b: seq<int>, i: int)
    requires 1 <= i && (i == 1 || i < |b|)
    ensures var r := SmoothedUpTo(b, i);
            forall k :: 1 <= k < i && b[k] == 0 ==> r[k] == TruncDiv(r[k - 1] + b[k + 1], 2)
    decreases i
  {
    if i > 1 {
      SmoothedUpToFills(b, i - 1);
      SmoothedUpToKeepsRest(b, i - 1);
    }
  }

  /** Smoothing never touches the first bar or the bars from `n - 1` on (the last bar included). */
  lemma SmoothKeepsEnds(b: seq<int>, n: int)
    requires n <= |b|
    ensures forall k :: 0 <= k < |b| && (k == 0 || k >= n - 1) ==> Smoothed(b, n)[k] == b[k]
  {
    if n >= 3 {
      SmoothedUpToKeepsRest(b, n - 1);
    }
  }

  /** Smoothing keeps every non-zero bar. */
  lemma SmoothKeepsNonZero(b: seq<int>, n: int)
    requires n <= |b|
    ensures forall k :: 0 <= k < |b| && b[k] != 0 ==> Smoothed(b, n)[k] == b[k]
  {
    if n >= 3 {
      SmoothedUpToKeepsNonZero(b, n - 1);
    }
  }

  /** An interior zero bar becomes the truncated mean of the smoothed left bar and the original right bar. */
  lemma SmoothFillsZero(b: seq<int>, n: int)
    requires n <= |b|
    ensures var r := Smoothed(b, n);
            forall k :: 1 <= k < n - 1 && b[k] == 0 ==> r[k] == TruncDiv(r[k - 1] + b[k + 1], 2)
  {
    if n >= 3 {
      SmoothedUpToFills(b, n - 1);
    }
  }

  /**
   * What smoothing promises of the bars `r` made from `b`: the same number
   * of bars; the first bar and the bars from `n - 1` on untouched; non-zero
   * bars kept; each interior zero bar the truncated mean of the bar to its
   * left, as already smoothed, and the bar to its right, as it was.
   */
  ghost predicate IsSmoothing(b: seq<int>, n: int, r: seq<int>)
  {
    && n <= |b| && |r| == |b|
    && (forall k :: 0 <= k < |b| && (k == 0 || k >= n - 1) ==> r[k] == b[k])
    && (forall k :: 0 <= k < |b| && b[k] != 0 ==> r[k] == b[k])
    && (forall k :: 1 <= k < n - 1 && b[k] == 0 ==> r[k] == TruncDiv(r[k - 1] + b[k + 1], 2))
  }

  /** The smoothing promises hold of `Smoothed` and of nothing else. */
  lemma SmoothCharacterised(b: seq<int>, n: int, r: seq<int>)
    requires n <= |b|
    ensures IsSmoothing(b, n, r) <==> r == Smoothed(b, n)
  {
    var s := Smoothed(b, n);
    SmoothKeepsEnds(b, n);
    SmoothKeepsNonZero(b, n);
    SmoothFillsZero(b, n);
    assert IsSmoothing(b, n, s);
    if IsSmoothing(b, n, r) && |b| > 0 {
      AgreeUpTo(b, n, r, s, |b| - 1);
    }
  }

  /** Two histograms with the smoothing promises agree on bars 0 to `m`. */
  lemma {:induction false} AgreeUpTo(b: seq<int>, n: int, r: seq<int>, s: seq<int>, m: nat)
    requires IsSmoothing(b, n, r) && IsSmoothing(b, n, s) && m < |b|
    ensures forall k :: 0 <= k <= m ==> r[k] == s[k]
  {
    if m > 0 {
      AgreeUpTo(b, n, r, s, m - 1);
    }
    if 1 <= m < n - 1 && b[m] == 0 {
      assert r[m] == TruncDiv(r[m - 1] + b[m + 1], 2);
      assert s[m] == TruncDiv(s[m - 1] + b[m + 1], 2);
    }
  }

  /**
   * {4, 0, 0, 8} smooths to {4, 2, 5, 8}: the second zero sees the 2 already
   * written to its left, where averaging the original bars would give 4.
   */
  lemma SmoothExample()
    ensures Smoothed([4, 0, 0, 8], 4) == [4, 2, 5, 8]
  {
    assert SmoothedUpTo([4, 0, 0, 8], 2) == [4, 2, 0, 8];
  }

  // ---------------------------------------------------------------------------
  // Linear bucketing
  // ---------------------------------------------------------------------------

  /** The bar that bin `i` of `[lo, hi)` falls into among `n` bars: `n * (i - lo) / (hi - lo)`. */
  function LinearBucket(n: int, lo: int, hi: int, i: int): (index: int)
    requires n > 0 && lo <= i < hi
    ensures 0 <= index < n
  {
    MulBelow(n, i - lo, hi - lo);
    TruncAgreesOnNonNegative(n * (i - lo), hi - lo);
    DivBelow(n * (i - lo), hi - lo, n);
    TruncDiv(n * (i - lo), hi - lo)
  }

  lemma MulBelow(n: nat, a: nat, b: int)
    requires n > 0 && a < b
    ensures 0 <= n * a < n * b
  {
  }

  lemma MulMonotone(n: nat, a: nat, b: nat)
    requires a <= b
    ensures n * a <= n * b
  {
  }

  /** A positive factor can be cancelled from a strict inequality. */
  lemma MulCancelLess(q: int, n: int, d: int)
    requires d > 0 && q * d < n * d
    ensures q < n
  {
    assert (n - q) * d == n * d - q * d;
  }

  lemma DivBelow(x: nat, d: int, n: nat)
    requires d > 0 && x < n * d
    ensures x / d < n
  {
    assert (x / d) * d <= x;
    MulCancelLess(x / d, n, d);
  }

  /** Later bins never fall into earlier bars. */
  lemma LinearBucketMonotonic(n: int, lo: int, hi: int, i: int, j: int)
    requires n > 0 && lo <= i <= j < hi
    ensures LinearBucket(n, lo, hi, i) <= LinearBucket(n, lo, hi, j)
  {
    MulMonotone(n, i - lo, j - lo);
    TruncAgreesOnNonNegative(n * (i - lo), hi - lo);
    TruncAgreesOnNonNegative(n * (j - lo), hi - lo);
    DivMonotone(n * (i - lo), n * (j - lo), hi - lo);
  }

  lemma DivMonotone(x: nat, y: nat, d: int)
    requires x <= y && d > 0
    ensures x / d <= y / d
  {
    var q, p := x / d, y / d;
    assert q * d <= x && y < p * d + d;
    assert (p + 1) * d == p * d + d;
    MulCancelLess(q, p + 1, d);
  }

  /** The first bin falls into the first bar. */
  lemma LinearBucketFirst(n: int, lo: int, hi: int)
    requires n > 0 && lo < hi
    ensures LinearBucket(n, lo, hi, lo) == 0
  {
    TruncAgreesOnNonNegative(0, hi - lo);
  }

  /** With as many bins as bars, bin `lo + k` falls into bar `k`. */
  lemma LinearBucketOneToOne(n: int, lo: int, i: int)
    requires n > 0 && lo <= i < lo + n
    ensures LinearBucket(n, lo, lo + n, i) == i - lo
  {
    var a := i - lo;
    TruncAgreesOnNonNegative(n * a, n);
    var q, r := (n * a) / n, (n * a) % n;
    assert n * a == q * n + r && 0 <= r < n;
    assert a * n == n * a;
    assert (a - q) * n == a * n - q * n;
    MulCancelLess(a - q, 1, n);
    MulCancelLess(-1, a - q, n);
  }

  /** The divisor of the bins' contributions, `FFTLEN / numbers`. */
  function BucketWidth(n: int): (w: int)
    requires 0 < n <= AudioProcessor.FFTLEN
    ensures w > 0
  {
    AudioProcessor.FFTLEN / n
  }

  /** What the bins `lo` to `i - 1` add to bar `k`: each bin of that bar contributes its value divided by the bucket width. */
  function BucketTotal(spectrum: seq<AudioProcessor.Sample>, lo: int, hi: int, n: int, k: int, i: int): int
    requires 0 < n <= AudioProcessor.FFTLEN
    requires i <= lo || (0 <= lo && i <= hi <= |spectrum|)
    decreases i - lo
  {
    if i <= lo then 0
    else
      BucketTotal(spectrum, lo, hi, n, k, i - 1)
      + (if LinearBucket(n, lo, hi, i - 1) == k then TruncDiv(spectrum[i - 1], BucketWidth(n)) else 0)
  }

  /** The `n` bars the linear visualizer builds from zero before smoothing. */
  function LinearBars(spectrum: seq<AudioProcessor.Sample>, lo: int, hi: int, n: int): (bars: seq<int>)
    requires 0 < n <= AudioProcessor.FFTLEN
    requires lo >= hi || (0 <= lo && hi <= |spectrum|)
    ensures |bars| == n
  {
    seq(n, k requires 0 <= k < n => BucketTotal(spectrum, lo, hi, n, k, hi))
  }

  /** Bins of a bar other than `k` add nothing to it. */
  lemma {:induction false} BucketTotalOfOtherBars(spectrum: seq<AudioProcessor.Sample>, lo: int, hi: int, n: int, k: int, i: int)
    requires 0 < n <= AudioProcessor.FFTLEN
    requires i <= lo || (0 <= lo && i <= hi <= |spectrum|)
    requires forall j :: lo <= j < i ==> LinearBucket(n, lo, hi, j) != k
    ensures BucketTotal(spectrum, lo, hi, n, k, i) == 0
    decreases i - lo
  {
    if i > lo {
      BucketTotalOfOtherBars(spectrum, lo, hi, n, k, i - 1);
    }
  }

  /**
   * With as many bins as bars each bar gets exactly its own bin, divided by
   * the bucket width.
   */
  lemma {:induction false} OneBinPerBar(spectrum: seq<AudioProcessor.Sample>, lo: int, n: int, k: int, i: int)
    requires 0 < n <= AudioProcessor.FFTLEN && 0 <= lo && lo + n <= |spectrum| && 0 <= k < n
    requires lo + k < i <= lo + n
    ensures BucketTotal(spectrum, lo, lo + n, n, k, i) == TruncDiv(spectrum[lo + k], BucketWidth(n))
    decreases i
  {
    var hi := lo + n;
    LinearBucketOneToOne(n, lo, i - 1);
    if i - 1 == lo + k {
      forall j | lo <= j < i - 1
        ensures LinearBucket(n, lo, hi, j) != k
      {
        LinearBucketOneToOne(n, lo, j);
      }
      BucketTotalOfOtherBars(spectrum, lo, hi, n, k, i - 1);
    } else {
      OneBinPerBar(spectrum, lo, n, k, i - 1);
    }
  }

  /**
   * The state every visualizer keeps: the number of bars, the height of the
   * graph and the bars themselves.
   */
  class Visualizer {
    var numbers: int
    var graphheight: int
    var bargraph: seq<int>

    constructor ()
      ensures numbers == 0 && graphheight == 0 && bargraph == []
    {
      numbers, graphheight, bargraph := 0, 0, [];
    }

    /** initializeHistogram: `numbers` zero bars; a negative count is refused by the vector with length_error. */
    method InitializeHistogram() returns (o: Outcome)
      modifies this`bargraph
      ensures o.Fail? <==> numbers < 0
      ensures o.Fail? ==> o.error == Length && bargraph == old(bargraph)
      ensures o.Pass? ==> bargraph == Zeros(numbers)
    {
      if numbers < 0 {
        return Fail(Length);
      }
      bargraph := Zeros(numbers);
      o := Pass;
    }

    /** smoothHistogram: bars 1 to `numbers - 2`, left to right, each zero bar replaced by the mean of its neighbours. */
    method SmoothHistogram()
      requires numbers <= |bargraph|
      modifies this`bargraph
      ensures bargraph == Smoothed(old(bargraph), numbers)
    {
      ghost var b := bargraph;
      var i := 1;
      while i < numbers - 1
        invariant 1 <= i && (i == 1 || i <= numbers - 1)
        invariant bargraph == SmoothedUpTo(b, i)
      {
        if bargraph[i] == 0 {
          bargraph := bargraph[i := TruncDiv(bargraph[i - 1] + bargraph[i + 1], 2)];
        }
        i := i + 1;
      }
    }

    /**
     * The bucket loop of the linear visualizer: bin `i` of `[lo, hi)` adds
     * `spectrum[i] / (FFTLEN / numbers)` to bar `numbers * (i - lo) / (hi - lo)`.
     */
    method AccumulateLinear(spectrum: seq<AudioProcessor.Sample>, lo: int, hi: int)
      requires 0 < numbers <= AudioProcessor.FFTLEN && numbers <= |bargraph|
      requires lo >= hi || (0 <= lo && hi <= |spectrum|)
      modifies this`bargraph
      ensures |bargraph| == old(|bargraph|)
      ensures forall k :: 0 <= k < numbers ==> bargraph[k] == old(bargraph[k]) + BucketTotal(spectrum, lo, hi, numbers, k, hi)
      ensures bargraph[numbers..] == old(bargraph[numbers..])
    {
      var bucketwidth := AudioProcessor.FFTLEN / numbers;
      ghost var b := bargraph;
      var i := lo;
      while i < hi
        invariant lo >= hi ==> i == lo
        invariant lo < hi ==> lo <= i <= hi
        invariant |bargraph| == |b| && bargraph[numbers..] == b[numbers..]
        invariant forall k :: 0 <= k < numbers ==> bargraph[k] == b[k] + BucketTotal(spectrum, lo, hi, numbers, k, i)
      {
        var index := LinearBucket(numbers, lo, hi, i);
        bargraph := bargraph[index := bargraph[index] + TruncDiv(spectrum[i], bucketwidth)];
        i := i + 1;
      }
    }

    /**
     * The histogram part of LinearVisualizer::visualize: the bars are set up
     * for the console, the spectrum bins `[lo, hi)` are bucketed into them
     * and the result is smoothed. A negative width makes initializeHistogram
     * throw std::length_error, which leaves visualize before any bucketing.
     */
    method LinearVisualize(spectrum: seq<AudioProcessor.Sample>, lo: int, hi: int, consoleWidth: int, consoleHeight: int)
      returns (o: Outcome)
      requires consoleWidth != 0 && consoleWidth <= AudioProcessor.FFTLEN
      requires lo >= hi || (0 <= lo && hi <= |spectrum|)
      modifies this
      ensures numbers == consoleWidth && graphheight == consoleHeight
      ensures o.Fail? <==> consoleWidth < 0
      ensures o.Fail? ==> o.error == Length && bargraph == old(bargraph)
      ensures o.Pass? ==> bargraph == Smoothed(LinearBars(spectrum, lo, hi, consoleWidth), consoleWidth)
    {
      numbers := consoleWidth;
      graphheight := consoleHeight;
      o := InitializeHistogram();
      if o.Fail? {
        return;
      }
      AccumulateLinear(spectrum, lo, hi);
      assert bargraph == LinearBars(spectrum, lo, hi, numbers);
      SmoothHistogram();
    }
  }
}
