/** Analysis helpers: argument guards, bin/frequency conversion, approximate
    highest common factor, peak picking and pitch classification. */
module Helper {
  import opened Common
  import AudioProcessor

  // ---------------------------------------------------------------------------
  // Guards
  // ---------------------------------------------------------------------------

  /** validate_size: invalid_argument exactly when `size` does not exceed `threshold`. */
  function ValidateSize(size: int, threshold: int): (o: Outcome)
    ensures o.Pass? <==> size > threshold
    ensures o.Fail? ==> o.error == InvalidArgument
  {
    if size <= threshold then Fail(InvalidArgument) else Pass
  }

  /**
   * The guard of mapLin2Log and the argument it hands to the logarithm:
   * out_of_range exactly when `linVal < linMin`, otherwise `linVal + 1 - linMin`,
   * which is then at least 1, so its logarithm is never negative.
   */
  function MapLin2LogArgument(linMin: real, linVal: real): (r: Result<real>)
    ensures r.Failure? <==> linVal < linMin
    ensures r.Failure? ==> r.error == OutOfRange
    ensures r.Success? ==> r.value >= 1.0 && r.value - 1.0 == linVal - linMin
  {
    if linVal < linMin then Failure(OutOfRange) else Success(linVal + 1.0 - linMin)
  }

  /** The two calls of the mapLin2Log test: 50 on a scale from 0 is accepted, -10 is refused. */
  lemma MapLin2LogExamples()
    ensures MapLin2LogArgument(0.0, 50.0) == Success(51.0)
    ensures MapLin2LogArgument(0.0, -10.0) == Failure(OutOfRange)
  {
  }

  // ---------------------------------------------------------------------------
  // Bin index <-> frequency
  // ---------------------------------------------------------------------------

  /** index2freq: the frequency of spectrum bin `index`, `2 * index * RATE / FFTLEN`. */
  function Index2Freq(index: int): (f: real)
    ensures index >= 0 <==> f >= 0.0
  {
    2.0 * index as real * AudioProcessor.RATE as real / AudioProcessor.FFTLEN as real
  }

  /** freq2index: the (fractional) bin of frequency `freq`, `0.5 * freq * FFTLEN / RATE`. */
  function Freq2Index(freq: real): (i: real)
    ensures freq >= 0.0 <==> i >= 0.0
  {
    0.5 * freq * AudioProcessor.FFTLEN as real / AudioProcessor.RATE as real
  }

  /** Over exact arithmetic the two conversions are inverse to each other. */
  lemma FreqIndexRoundTrip(index: int, freq: real)
    ensures Freq2Index(Index2Freq(index)) == index as real
    ensures Index2Freq(Freq2Index(freq).Floor) <= freq < Index2Freq(Freq2Index(freq).Floor + 1)
  {
    var i := Freq2Index(freq);
    assert i.Floor as real <= i < i.Floor as real + 1.0;
    var c := 2.0 * AudioProcessor.RATE as real / AudioProcessor.FFTLEN as real;
    assert Index2Freq(i.Floor) == i.Floor as real * c;
    assert Index2Freq(i.Floor + 1) == (i.Floor as real + 1.0) * c;
    assert freq == i * c;
  }

  /** Conversion keeps the order of frequencies. */
  lemma Freq2IndexMonotonic(f: real, g: real)
    requires f <= g
    ensures Freq2Index(f) <= Freq2Index(g)
  {
  }

  // ---------------------------------------------------------------------------
  // Approximate highest common factor
  // ---------------------------------------------------------------------------

  /** The default accuracy threshold of approx_hcf. */
  const DEFAULT_ACCURACY_THRESHOLD: int := 10

  function Max(a: real, b: real): real { if a >= b then a else b }
  function Min(a: real, b: real): real { if a <= b then a else b }

  /** std::round on a non-negative value: halves round up. */
  function Round(x: real): (n: int)
    requires x >= 0.0
    ensures n >= 0 && x - 0.5 < n as real <= x + 0.5
  {
    (x + 0.5).Floor
  }

  /**
   * The two-input case of approx_hcf as written: 0 when `max / min` exceeds
   * the threshold, otherwise `a / (max / min)`. A zero `b` (a reduced tail that
   * found no common factor) makes the float ratio infinite, so the result is 0.
   */
  function HcfPairAsWritten(a: real, b: real, threshold: int): (h: real)
    requires a > 0.0 && b >= 0.0
    ensures 0.0 <= h <= Min(a, b)
    ensures h > 0.0 ==> b > 0.0 && Max(a, b) <= threshold as real * Min(a, b)
  {
    if b == 0.0 then 0.0
    else
      var ratio := Max(a, b) / Min(a, b);
      if ratio > threshold as real then 0.0 else a / ratio
  }

  /** approx_hcf as written: fewer than two inputs is invalid_argument; otherwise the tail is reduced first. */
  function ApproxHcfAsWritten(inputs: seq<real>, threshold: int): (r: Result<real>)
    requires forall i :: 0 <= i < |inputs| ==> inputs[i] > 0.0
    ensures r.Failure? <==> |inputs| < 2
    ensures r.Failure? ==> r.error == InvalidArgument
    ensures r.Success? ==> r.value >= 0.0 && forall i :: 0 <= i < |inputs| ==> r.value <= inputs[i]
  {
    if ValidateSize(|inputs|, 1).Fail? then Failure(InvalidArgument)
    else if |inputs| == 2 then Success(HcfPairAsWritten(inputs[0], inputs[1], threshold))
    else
      var smaller := ApproxHcfAsWritten(inputs[1..], threshold);
      Success(HcfPairAsWritten(inputs[0], smaller.value, threshold))
  }

  /** As written the result depends on the order of the pair: {440, 880} gives 220, {880, 440} gives 440. */
  lemma HcfOrderDependsAsWritten()
    ensures ApproxHcfAsWritten([440.0, 880.0], DEFAULT_ACCURACY_THRESHOLD) == Success(220.0)
    ensures ApproxHcfAsWritten([880.0, 440.0], DEFAULT_ACCURACY_THRESHOLD) == Success(440.0)
  {
  }

  /** The threshold test of the source's own test: {15, 10, 4.5} at threshold 1 finds no common factor. */
  lemma HcfThresholdExampleAsWritten()
    ensures ApproxHcfAsWritten([15.0, 10.0, 4.5], 1) == Success(0.0)
  {
    assert ApproxHcfAsWritten([15.0, 10.0, 4.5][1..], 1) == Success(0.0) by {
      assert [15.0, 10.0, 4.5][1..] == [10.0, 4.5];
    }
  }

  /**
   * The two-input case as intended: the larger input divided by the rounded
   * ratio, so that the result does not depend on the order of the pair.
   */
  function HcfPair(a: real, b: real, threshold: int): (h: real)
    requires a > 0.0 && b >= 0.0
    ensures 0.0 <= h <= Max(a, b)
    ensures h > 0.0 ==> b > 0.0 && Max(a, b) <= threshold as real * Min(a, b)
  {
    if b == 0.0 then 0.0
    else
      var ratio := Max(a, b) / Min(a, b);
      RatioBounds(Max(a, b), Min(a, b), threshold);
      if ratio > threshold as real then 0.0
      else
        QuotientBound(Max(a, b), Round(ratio) as real);
        Max(a, b) / Round(ratio) as real
  }

  /** The ratio of the larger to the smaller of two positive values is at least 1, and within `t` exactly when the larger is at most `t` times the smaller. */
  lemma RatioBounds(x: real, y: real, t: int)
    requires 0.0 < y <= x
    ensures x / y >= 1.0
    ensures x / y <= t as real <==> x <= t as real * y
  {
    var r := x / y;
    assert r * y == x;
    if r <= t as real {
      assert r * y <= t as real * y;
    } else {
      assert r * y > t as real * y;
    }
  }

  /** Dividing a non-negative value by at least 1 does not enlarge it. */
  lemma QuotientBound(x: real, d: real)
    requires x >= 0.0 && d >= 1.0
    ensures 0.0 <= x / d <= x
  {
    assert (x / d) * d == x;
  }

  /** The intended pair reduction is symmetric. */
  lemma HcfPairSymmetric(a: real, b: real, threshold: int)
    requires a > 0.0 && b > 0.0
    ensures HcfPair(a, b, threshold) == HcfPair(b, a, threshold)
  {
  }

  /** When the larger input is `k` times the smaller, with `k` within the threshold, the factor is the smaller input. */
  lemma HcfPairOfHarmonic(f: real, k: int, threshold: int)
    requires f > 0.0 && 1 <= k <= threshold
    ensures HcfPair(f, k as real * f, threshold) == f
    ensures HcfPair(k as real * f, f, threshold) == f
  {
    var m := k as real * f;
    assert Max(f, m) == m && Min(f, m) == f;
    assert m / f == k as real;
    assert Round(k as real) == k;
  }

  /** approx_hcf with the intended pair reduction. */
  function ApproxHcf(inputs: seq<real>, threshold: int): (r: Result<real>)
    requires forall i :: 0 <= i < |inputs| ==> inputs[i] > 0.0
    ensures r.Failure? <==> |inputs| < 2
    ensures r.Failure? ==> r.error == InvalidArgument
    ensures r.Success? ==> r.value >= 0.0 && exists i :: 0 <= i < |inputs| && r.value <= inputs[i]
  {
    if ValidateSize(|inputs|, 1).Fail? then Failure(InvalidArgument)
    else if |inputs| == 2 then
      assert HcfPair(inputs[0], inputs[1], threshold) <= inputs[0] || HcfPair(inputs[0], inputs[1], threshold) <= inputs[1];
      Success(HcfPair(inputs[0], inputs[1], threshold))
    else
      var smaller := ApproxHcf(inputs[1..], threshold);
      var h := HcfPair(inputs[0], smaller.value, threshold);
      assert h <= inputs[0] || h <= smaller.value;
      assert exists i :: 1 <= i < |inputs| && smaller.value <= inputs[i] by {
        var j :| 0 <= j < |inputs[1..]| && smaller.value <= inputs[1..][j];
        assert inputs[1..][j] == inputs[j + 1];
      }
      Success(h)
  }

  /** {440, 880} in either order gives 440 with the intended reduction. */
  lemma HcfOctaveExample()
    ensures ApproxHcf([440.0, 880.0], DEFAULT_ACCURACY_THRESHOLD) == Success(440.0)
    ensures ApproxHcf([880.0, 440.0], DEFAULT_ACCURACY_THRESHOLD) == Success(440.0)
  {
    HcfPairOfHarmonic(440.0, 2, DEFAULT_ACCURACY_THRESHOLD);
  }

  // ---------------------------------------------------------------------------
  // Pitch classes
  // ---------------------------------------------------------------------------

  /** The twelve pitch names, from A upward. */
  const PITCH_NAMES: seq<string> := ["A", "A#", "B", "C", "C#", "D", "D#", "E", "F", "F#", "G", "G#"]

  /**
   * pitchName: out_of_range outside [1, 12], otherwise the name of the pitch
   * class (whose length is what the source returns): a letter A to G,
   * followed by '#' for a sharp.
   */
  function PitchName(pitch: int): (r: Result<string>)
    ensures r.Failure? <==> pitch < 1 || pitch > 12
    ensures r.Failure? ==> r.error == OutOfRange
    ensures r.Success? ==> 1 <= |r.value| <= 2 && 'A' <= r.value[0] <= 'G'
    ensures r.Success? && |r.value| == 2 ==> r.value[1] == '#'
  {
    if pitch < 1 || pitch > 12 then Failure(OutOfRange) else Success(PITCH_NAMES[pitch - 1])
  }

  /** Different pitch classes have different names. */
  lemma PitchNameInjective(p: int, q: int)
    requires 1 <= p <= 12 && 1 <= q <= 12 && p != q
    ensures PitchName(p).value != PitchName(q).value
  {
  }

  /** Pitch class 1 is A. */
  lemma PitchNameOfA()
    ensures PitchName(1) == Success("A")
  {
  }

  /** `2^k`. */
  function Pow2(k: nat): (p: real)
    ensures p >= 1.0
  {
    if k == 0 then 1.0 else 2.0 * Pow2(k - 1)
  }

  /** `freq` moved by whole octaves: `k` octaves up, or `-k` down when `k` is negative. */
  ghost function Octaves(freq: real, k: int): real
  {
    if k >= 0 then freq * Pow2(k) else freq / Pow2(-k)
  }

  /** `std::clamp(n, 0, 11)`. */
  function Clamp(n: int): (c: int)
    ensures 0 <= c <= 11
    ensures 0 <= n <= 11 ==> c == n
  {
    if n < 0 then 0 else if n > 11 then 11 else n
  }

  /**
   * pitchNumber: invalid_argument for a non-positive frequency; otherwise the
   * frequency is folded by octaves into [440, 880] and the nearest semitone
   * above A, clamped to [0, 11], is returned plus one. `semitones` stands for
   * `round(log(f / 440) / log(2^(1/12)))`, which the model leaves abstract.
   */
  method PitchNumber(freq: real, semitones: real -> int) returns (r: Result<int>, folded: real)
    ensures r.Failure? <==> freq <= 0.0
    ensures r.Failure? ==> r.error == InvalidArgument
    ensures r.Success? ==> 440.0 <= folded <= 880.0 && exists k: int :: folded == Octaves(freq, k)
    ensures r.Success? && 440.0 <= freq <= 880.0 ==> folded == freq
    ensures r.Success? && freq < 440.0 ==> folded < 880.0
    ensures r.Success? && freq > 880.0 ==> folded > 440.0
    ensures r.Success? ==> 1 <= r.value <= 12 && r.value == Clamp(semitones(folded / 440.0)) + 1
  {
    if freq <= 0.0 {
      return Failure(InvalidArgument), freq;
    }
    var raised;
    ghost var up, down;
    raised, up := FoldUp(freq);
    folded, down := FoldDown(raised);
    if down > 0 {
      assert folded == Octaves(freq, -(down as int));
    } else {
      assert folded == Octaves(freq, up);
    }
    var pitch := Clamp(semitones(folded / 440.0));
    r := Success(pitch + 1);
  }

  /** The first folding loop of pitchNumber: doubling up to at least 440. */
  method FoldUp(freq: real) returns (folded: real, ghost up: nat)
    requires freq > 0.0
    ensures folded == freq * Pow2(up) && folded >= 440.0
    ensures up > 0 ==> folded < 880.0
    ensures freq >= 440.0 ==> up == 0 && folded == freq
  {
    folded, up := freq, 0;
    while folded < 440.0
      invariant folded == freq * Pow2(up) && folded > 0.0
      invariant freq >= 440.0 ==> up == 0 && folded == freq
      invariant up > 0 ==> folded < 880.0
      decreases 880.0 / folded
    {
      folded := folded * 2.0;
      up := up + 1;
    }
  }

  /** The second folding loop of pitchNumber: halving down to at most 880. */
  method FoldDown(freq: real) returns (folded: real, ghost down: nat)
    requires freq >= 440.0
    ensures folded == freq / Pow2(down) && 440.0 <= folded <= 880.0
    ensures freq <= 880.0 ==> down == 0 && folded == freq
    ensures down > 0 ==> folded > 440.0
  {
    folded, down := freq, 0;
    while folded > 880.0
      invariant folded == freq / Pow2(down) && folded >= 440.0
      invariant freq <= 880.0 ==> down == 0 && folded == freq
      invariant down > 0 ==> folded > 440.0
      decreases folded
    {
      folded := folded / 2.0;
      down := down + 1;
    }
  }

  /** 440 Hz is pitch class 1, given that a ratio of 1 is zero semitones. */
  method PitchNumberOfA(semitones: real -> int) returns (r: Result<int>)
    requires semitones(1.0) == 0
    ensures r == Success(1)
  {
    var folded;
    r, folded := PitchNumber(440.0, semitones);
  }

  /**
   * 880 Hz is an octave above 440 Hz, but the halving loop leaves it as it
   * is: with the true rounding, `semitones(2.0) == 12`, it is clamped to 11,
   * so 440 Hz is pitch 1 (A) and 880 Hz is pitch 12 (G#).
   */
  method OctaveOfAAsWritten(semitones: real -> int) returns (atA: Result<int>, octaveUp: Result<int>)
    requires semitones(1.0) == 0 && semitones(2.0) == 12
    ensures atA == Success(1) && octaveUp == Success(12)
  {
    var folded;
    atA, folded := PitchNumber(440.0, semitones);
    octaveUp, folded := PitchNumber(880.0, semitones);
  }

  /**
   * pitchNumber with the fold its documentation describes, into [440, 880):
   * the same guard, doubling loop, rounding and clamp, but halving while the
   * frequency is at least 880.
   */
  method PitchNumberIntended(freq: real, semitones: real -> int) returns (r: Result<int>, folded: real)
    ensures r.Failure? <==> freq <= 0.0
    ensures r.Failure? ==> r.error == InvalidArgument
    ensures r.Success? ==> 440.0 <= folded < 880.0 && exists k: int :: folded == Octaves(freq, k)
    ensures r.Success? && 440.0 <= freq < 880.0 ==> folded == freq
    ensures r.Success? ==> 1 <= r.value <= 12 && r.value == Clamp(semitones(folded / 440.0)) + 1
  {
    if freq <= 0.0 {
      return Failure(InvalidArgument), freq;
    }
    var raised;
    ghost var up, down;
    raised, up := FoldUp(freq);
    folded, down := FoldBelow(raised);
    if down > 0 {
      assert folded == Octaves(freq, -(down as int));
    } else {
      assert folded == Octaves(freq, up);
    }
    var pitch := Clamp(semitones(folded / 440.0));
    r := Success(pitch + 1);
  }

  /** The intended halving loop: halving while at least 880. */
  method FoldBelow(freq: real) returns (folded: real, ghost down: nat)
    requires freq >= 440.0
    ensures folded == freq / Pow2(down) && 440.0 <= folded < 880.0
    ensures freq < 880.0 ==> down == 0 && folded == freq
  {
    folded, down := freq, 0;
    while folded >= 880.0
      invariant folded == freq / Pow2(down) && folded >= 440.0
      invariant freq < 880.0 ==> down == 0 && folded == freq
      decreases folded
    {
      folded := folded / 2.0;
      down := down + 1;
    }
  }

  /** With the intended fold, a frequency and the octave above it have the same pitch number. */
  method OctaveInvariantIntended(freq: real, semitones: real -> int) returns (low: Result<int>, high: Result<int>)
    ensures low.Success? <==> freq > 0.0
    ensures low == high
  {
    var lowFolded, highFolded;
    low, lowFolded := PitchNumberIntended(freq, semitones);
    high, highFolded := PitchNumberIntended(2.0 * freq, semitones);
    if freq > 0.0 {
      ghost var k1: int :| lowFolded == Octaves(freq, k1);
      ghost var k2: int :| highFolded == Octaves(2.0 * freq, k2);
      OctavesOfDouble(freq, k2);
      OctaveFoldUnique(freq, k1, k2 + 1);
    }
  }

  /** With the intended fold, 880 Hz is pitch 1, A, like 440 Hz. */
  method PitchNumberIntendedOfOctaveA(semitones: real -> int) returns (r: Result<int>)
    requires semitones(1.0) == 0
    ensures r == Success(1)
  {
    var folded;
    r, folded := PitchNumberIntended(880.0, semitones);
    assert Pow2(1) == 2.0;
  }

  lemma OctavesPositive(freq: real, k: int)
    requires freq > 0.0
    ensures Octaves(freq, k) > 0.0
  {
  }

  /** One octave more doubles the frequency. */
  lemma OctavesStep(freq: real, k: int)
    ensures Octaves(freq, k + 1) == 2.0 * Octaves(freq, k)
  {
    if k < -1 {
      var p := Pow2(-k - 1);
      assert Pow2(-k) == 2.0 * p;
      assert freq / p == 2.0 * (freq / (2.0 * p));
    }
  }

  /** Doubling the frequency is one octave more. */
  lemma OctavesOfDouble(freq: real, k: int)
    ensures Octaves(2.0 * freq, k) == Octaves(freq, k + 1)
  {
    if k < -1 {
      var p := Pow2(-k - 1);
      var q := freq / p;
      assert Pow2(-k) == 2.0 * p;
      assert 2.0 * freq == q * (2.0 * p);
    }
  }

  /** Moving at least one octave up at least doubles a positive frequency. */
  lemma {:induction false} OctavesGrow(freq: real, k: int, j: nat)
    requires freq > 0.0 && j >= 1
    ensures Octaves(freq, k + j) >= 2.0 * Octaves(freq, k)
  {
    OctavesStep(freq, k + j - 1);
    if j > 1 {
      OctavesGrow(freq, k, j - 1);
      OctavesPositive(freq, k + j - 1);
    }
  }

  /** Only one octave of a positive frequency lies in [440, 880). */
  lemma OctaveFoldUnique(freq: real, k1: int, k2: int)
    requires freq > 0.0
    requires 440.0 <= Octaves(freq, k1) < 880.0 && 440.0 <= Octaves(freq, k2) < 880.0
    ensures k1 == k2
  {
    if k1 < k2 {
      OctavesGrow(freq, k1, k2 - k1);
    } else if k2 < k1 {
      OctavesGrow(freq, k2, k1 - k2);
    }
  }

  // ---------------------------------------------------------------------------
  // The n largest values
  // ---------------------------------------------------------------------------

  /** Every entry of `order` is an index into `values`. */
  predicate InRange(values: seq<int>, order: seq<nat>)
  {
    forall k :: 0 <= k < |order| ==> order[k] < |values|
  }

  /** The values at the entries of `order` never increase. */
  ghost predicate Descending(values: seq<int>, order: seq<nat>)
  {
    InRange(values, order) &&
    forall i, j :: 0 <= i < j < |order| ==> values[order[i]] >= values[order[j]]
  }

  ghost predicate Distinct(s: seq<int>)
  {
    forall i, j :: 0 <= i < j < |s| ==> s[i] != s[j]
  }

  /** No two neighbouring entries are adjacent indices. */
  ghost predicate Spread(s: seq<int>)
  {
    forall k :: 0 < k < |s| ==> Abs(s[k] - s[k - 1]) != 1
  }

  /** `x` inserted before the first entry whose value is no larger than its own, so ahead of its equals. */
  function InsertByValue(values: seq<int>, x: nat, order: seq<nat>): (r: seq<nat>)
    requires x < |values| && InRange(values, order)
    ensures |r| == |order| + 1 && InRange(values, r)
  {
    if |order| == 0 || values[order[0]] <= values[x] then [x] + order
    else [order[0]] + InsertByValue(values, x, order[1..])
  }

  /**
   * The order in which the indices `s` come out of sorting by value, largest
   * first. std::sort is not stable, so equal values may come out in any order;
   * this insertion sort, which keeps equal values in their order in `s`, is
   * one admissible outcome.
   */
  function SortByValue(values: seq<int>, s: seq<nat>): (r: seq<nat>)
    requires InRange(values, s)
    ensures |r| == |s| && InRange(values, r)
  {
    if |s| == 0 then [] else InsertByValue(values, s[0], SortByValue(values, s[1..]))
  }

  /** Insertion adds exactly the one entry. */
  lemma {:induction false} InsertPermutes(values: seq<int>, x: nat, order: seq<nat>)
    requires x < |values| && InRange(values, order)
    ensures multiset(InsertByValue(values, x, order)) == multiset(order) + multiset{x}
  {
    if |order| > 0 && values[order[0]] > values[x] {
      InsertPermutes(values, x, order[1..]);
      assert order == [order[0]] + order[1..];
    }
  }

  /** Sorting is a permutation. */
  lemma {:induction false} SortPermutes(values: seq<int>, s: seq<nat>)
    requires InRange(values, s)
    ensures multiset(SortByValue(values, s)) == multiset(s)
  {
    if |s| > 0 {
      SortPermutes(values, s[1..]);
      InsertPermutes(values, s[0], SortByValue(values, s[1..]));
      assert s == [s[0]] + s[1..];
    }
  }

  lemma {:induction false} InsertKeepsDescending(values: seq<int>, x: nat, order: seq<nat>)
    requires x < |values| && Descending(values, order)
    ensures Descending(values, InsertByValue(values, x, order))
  {
    if |order| > 0 && values[order[0]] > values[x] {
      var rest := InsertByValue(values, x, order[1..]);
      InsertKeepsDescending(values, x, order[1..]);
      InsertPermutes(values, x, order[1..]);
      forall k | 0 <= k < |rest|
        ensures values[order[0]] >= values[rest[k]]
      {
        assert rest[k] in multiset(rest);
        if rest[k] != x {
          assert rest[k] in order[1..];
        }
      }
    }
  }

  lemma {:induction false} InsertKeepsDistinct(values: seq<int>, x: nat, order: seq<nat>)
    requires x < |values| && InRange(values, order) && Distinct(order) && x !in order
    ensures Distinct(InsertByValue(values, x, order))
  {
    if |order| > 0 && values[order[0]] > values[x] {
      var rest := InsertByValue(values, x, order[1..]);
      InsertKeepsDistinct(values, x, order[1..]);
      InsertPermutes(values, x, order[1..]);
      forall k | 0 <= k < |rest|
        ensures order[0] != rest[k]
      {
        assert rest[k] in multiset(rest);
        if rest[k] != x {
          assert rest[k] in order[1..];
        }
      }
    }
  }

  /** Sorting yields the values in descending order. */
  lemma {:induction false} SortByValueDescending(values: seq<int>, s: seq<nat>)
    requires InRange(values, s)
    ensures Descending(values, SortByValue(values, s))
  {
    if |s| > 0 {
      SortByValueDescending(values, s[1..]);
      InsertKeepsDescending(values, s[0], SortByValue(values, s[1..]));
    }
  }

  /** Sorting distinct indices yields distinct indices. */
  lemma {:induction false} SortByValueDistinct(values: seq<int>, s: seq<nat>)
    requires InRange(values, s) && Distinct(s)
    ensures Distinct(SortByValue(values, s))
  {
    if |s| > 0 {
      var rest := SortByValue(values, s[1..]);
      SortByValueDistinct(values, s[1..]);
      SortPermutes(values, s[1..]);
      assert s[0] !in s[1..];
      assert s[0] !in multiset(rest);
      InsertKeepsDistinct(values, s[0], rest);
    }
  }

  /** The indices of `values`, in order. */
  function Indices(n: nat): (s: seq<nat>)
    ensures |s| == n && forall k :: 0 <= k < n ==> s[k] == k
  {
    seq(n, k => k)
  }

  /** All indices of `values`, largest value first. */
  function Ranked(values: seq<int>): (r: seq<nat>)
    ensures |r| == |values| && InRange(values, r)
  {
    SortByValue(values, Indices(|values|))
  }

  /** Ranking is a permutation of the indices into descending order of value. */
  lemma RankedIsSortedPermutation(values: seq<int>)
    ensures Descending(values, Ranked(values)) && Distinct(Ranked(values))
    ensures forall k :: k in Ranked(values) <==> 0 <= k < |values|
  {
    SortByValueDescending(values, Indices(|values|));
    SortByValueDistinct(values, Indices(|values|));
    SortPermutes(values, Indices(|values|));
    forall k
      ensures k in Ranked(values) <==> 0 <= k < |values|
    {
      assert k in Ranked(values) <==> k in multiset(Indices(|values|));
      if 0 <= k < |values| {
        assert Indices(|values|)[k] == k;
      }
    }
  }

  /**
   * The selection loop of Find_n_Largest: walk `order`, appending each entry
   * to `picked` until `nOut` are picked; with `clumped`, an entry one away from
   * the most recently picked index is passed over.
   */
  function Pick(order: seq<nat>, nOut: int, clumped: bool, picked: seq<nat>): (r: seq<nat>)
    ensures |picked| <= |r| && r[..|picked|] == picked
    decreases |order|
  {
    if |order| == 0 || |picked| >= nOut then picked
    else if clumped && |picked| > 0 && Abs(picked[|picked| - 1] as int - order[0]) == 1 then
      Pick(order[1..], nOut, clumped, picked)
    else
      Pick(order[1..], nOut, clumped, picked + [order[0]])
  }

  /** The indices Find_n_Largest writes, in the order it writes them. */
  function Selection(values: seq<int>, nOut: int, clumped: bool): seq<nat>
  {
    Pick(Ranked(values), nOut, clumped, [])
  }

  lemma PrefixKeepsOrder(values: seq<int>, a: seq<nat>, b: seq<nat>)
    ensures Descending(values, a + b) ==> Descending(values, a)
    ensures Distinct(a + b) ==> Distinct(a)
  {
    var s := a + b;
    assert forall k :: 0 <= k < |a| ==> a[k] == s[k];
  }

  lemma DropKeepsOrder(values: seq<int>, a: seq<nat>, b: seq<nat>)
    requires |b| > 0
    ensures Descending(values, a + b) ==> Descending(values, a + b[1..])
    ensures Distinct(a + b) ==> Distinct(a + b[1..])
    ensures forall y :: y in a + b[1..] ==> y in a + b
  {
    var s, t := a + b, a + b[1..];
    assert forall k :: 0 <= k < |t| ==> t[k] == s[if k < |a| then k else k + 1];
  }

  /** The selection picks no more than it was offered nor more than `nOut`, and only entries of `order`. */
  lemma {:induction false} PickBounds(order: seq<nat>, nOut: int, clumped: bool, picked: seq<nat>)
    ensures var r := Pick(order, nOut, clumped, picked);
      && |r| <= |picked| + |order|
      && (|picked| <= nOut ==> |r| <= nOut)
      && (forall y :: y in r ==> y in picked + order)
    decreases |order|
  {
    if |order| == 0 || |picked| >= nOut {
    } else if clumped && |picked| > 0 && Abs(picked[|picked| - 1] as int - order[0]) == 1 {
      PickBounds(order[1..], nOut, clumped, picked);
      DropKeepsOrder([], picked, order);
    } else {
      var next := picked + [order[0]];
      PickBounds(order[1..], nOut, clumped, next);
      assert next + order[1..] == picked + order;
    }
  }

  /** The selection keeps the descending order of what it was offered. */
  lemma {:induction false} PickDescending(values: seq<int>, order: seq<nat>, nOut: int, clumped: bool, picked: seq<nat>)
    requires Descending(values, picked + order)
    ensures Descending(values, Pick(order, nOut, clumped, picked))
    decreases |order|
  {
    if |order| == 0 || |picked| >= nOut {
      PrefixKeepsOrder(values, picked, order);
    } else if clumped && |picked| > 0 && Abs(picked[|picked| - 1] as int - order[0]) == 1 {
      DropKeepsOrder(values, picked, order);
      PickDescending(values, order[1..], nOut, clumped, picked);
    } else {
      var next := picked + [order[0]];
      assert next + order[1..] == picked + order;
      PickDescending(values, order[1..], nOut, clumped, next);
    }
  }

  /** The selection of distinct entries is distinct. */
  lemma {:induction false} PickDistinct(values: seq<int>, order: seq<nat>, nOut: int, clumped: bool, picked: seq<nat>)
    requires Distinct(picked + order)
    ensures Distinct(Pick(order, nOut, clumped, picked))
    decreases |order|
  {
    if |order| == 0 || |picked| >= nOut {
      PrefixKeepsOrder(values, picked, order);
    } else if clumped && |picked| > 0 && Abs(picked[|picked| - 1] as int - order[0]) == 1 {
      DropKeepsOrder(values, picked, order);
      PickDistinct(values, order[1..], nOut, clumped, picked);
    } else {
      var next := picked + [order[0]];
      assert next + order[1..] == picked + order;
      PickDistinct(values, order[1..], nOut, clumped, next);
    }
  }

  /** With de-clumping, no pick is adjacent to the one before it. */
  lemma {:induction false} PickSpread(order: seq<nat>, nOut: int, picked: seq<nat>)
    requires Spread(picked)
    ensures Spread(Pick(order, nOut, true, picked))
    decreases |order|
  {
    if |order| == 0 || |picked| >= nOut {
    } else if |picked| > 0 && Abs(picked[|picked| - 1] as int - order[0]) == 1 {
      PickSpread(order[1..], nOut, picked);
    } else {
      var next := picked + [order[0]];
      assert Spread(next) by {
        forall k | 0 < k < |next|
          ensures Abs(next[k] as int - next[k - 1]) != 1
        {
          if k < |picked| {
            assert next[k] == picked[k] && next[k - 1] == picked[k - 1];
          }
        }
      }
      PickSpread(order[1..], nOut, next);
    }
  }

  /** Without de-clumping, the selection is the first `nOut` entries offered. */
  lemma {:induction false} PickUnclumped(order: seq<nat>, nOut: int, picked: seq<nat>)
    ensures Pick(order, nOut, false, picked) == picked + order[..Clip(nOut - |picked|, |order|)]
    decreases |order|
  {
    if |order| == 0 || |picked| >= nOut {
      assert order[..Clip(nOut - |picked|, |order|)] == [];
      assert picked + [] == picked;
    } else {
      var next := picked + [order[0]];
      PickUnclumped(order[1..], nOut, next);
      var m := Clip(nOut - |next|, |order[1..]|);
      assert next + order[1..][..m] == picked + order[..m + 1];
    }
  }

  /** `n` cut to the range [0, bound]. */
  function Clip(n: int, bound: nat): (c: nat)
    ensures c <= bound && (c == n || (c == 0 && n < 0) || (c == bound && n > bound))
  {
    if n < 0 then 0 else if n > bound then bound else n
  }

  /**
   * At most `nOut` indices, distinct and within range, with non-increasing
   * values; without de-clumping exactly the `nOut` (or all) largest, with
   * de-clumping no two neighbouring outputs adjacent.
   */
  lemma SelectionProperties(values: seq<int>, nOut: int, clumped: bool)
    ensures var r := Selection(values, nOut, clumped);
      && |r| <= |values| && (nOut >= 0 ==> |r| <= nOut)
      && (forall k :: 0 <= k < |r| ==> r[k] < |values|)
      && Distinct(r)
      && (forall i, j :: 0 <= i < j < |r| ==> values[r[i]] >= values[r[j]])
      && (clumped ==> Spread(r))
      && (!clumped ==> |r| == Clip(nOut, |values|))
      && (!clumped ==> forall k, j :: 0 <= k < |values| && k !in r && 0 <= j < |r| ==> values[k] <= values[r[j]])
  {
    var order := Ranked(values);
    var r := Selection(values, nOut, clumped);
    assert [] + order == order;
    assert Descending(values, r) by {
      RankedIsSortedPermutation(values);
      PickDescending(values, order, nOut, clumped, []);
    }
    assert Distinct(r) by {
      RankedIsSortedPermutation(values);
      PickDistinct(values, order, nOut, clumped, []);
    }
    PickBounds(order, nOut, clumped, []);
    if clumped {
      PickSpread(order, nOut, []);
    } else {
      PickUnclumped(order, nOut, []);
      UnclumpedSelectionIsTop(values, nOut);
    }
  }

  /** Without de-clumping, no index left out has a larger value than one selected. */
  lemma UnclumpedSelectionIsTop(values: seq<int>, nOut: int)
    ensures var r := Selection(values, nOut, false);
      && InRange(values, r)
      && forall k, j :: 0 <= k < |values| && k !in r && 0 <= j < |r| ==> values[k] <= values[r[j]]
  {
    var order := Ranked(values);
    var r := Selection(values, nOut, false);
    RankedIsSortedPermutation(values);
    PickUnclumped(order, nOut, []);
    assert r == order[..|r|];
    PrefixHoldsLargest(values, order, |r|);
    forall k, j | 0 <= k < |values| && k !in r && 0 <= j < |r|
      ensures values[k] <= values[r[j]]
    {
      assert k in order;
      assert r[j] == order[j];
    }
  }

  /** In a descending order, whatever is left after the first `m` entries is no larger than any of them. */
  lemma PrefixHoldsLargest(values: seq<int>, order: seq<nat>, m: nat)
    requires Descending(values, order) && m <= |order|
    ensures forall k, j :: k in order && k !in order[..m] && 0 <= j < m ==> values[k] <= values[order[j]]
  {
    forall k, j | k in order && k !in order[..m] && 0 <= j < m
      ensures values[k] <= values[order[j]]
    {
      var p :| 0 <= p < |order| && order[p] == k;
    }
  }

  /**
   * Find_n_Largest: invalid_argument when `nIn <= 0`; otherwise the indices
   * of the largest of `input[..nIn]`, largest first, written to
   * `output[..count]`, at most `nOut` of them.
   */
  method FindNLargest(output: array<int>, input: array<AudioProcessor.Sample>, nOut: int, nIn: int, clumped: bool)
    returns (o: Outcome, count: nat)
    requires nIn <= input.Length && nOut <= output.Length
    modifies output
    ensures o.Fail? <==> nIn <= 0
    ensures o.Fail? ==> o.error == InvalidArgument && count == 0 && unchanged(output)
    ensures o.Pass? ==> count <= output.Length && output[..count] == Selection(input[..nIn], nOut, clumped)
    ensures output[count..] == old(output[count..])
  {
    o := ValidateSize(nIn, 0);
    if o.Fail? {
      return o, 0;
    }
    var values := input[..nIn];
    var indexed := IndexList(nIn);
    var order := SortByValue(values, indexed);
    assert order == Ranked(values);
    count := PickInto(output, order, nOut, clumped);
  }

  /** The selection loop of Find_n_Largest: indices of `order` written to `output` in turn, skipping neighbours when de-clumping. */
  method PickInto(output: array<int>, order: seq<nat>, nOut: int, clumped: bool) returns (count: nat)
    requires nOut <= output.Length
    modifies output
    ensures count <= output.Length && output[..count] == Pick(order, nOut, clumped, [])
    ensures output[count..] == old(output[count..])
  {
    count := 0;
    ghost var picked: seq<nat> := [];
    var i := 0;
    assert order[i..] == order;
    while i < |order| && count < nOut
      invariant 0 <= i <= |order| && count <= i && count <= output.Length
      invariant output[..count] == picked
      invariant Pick(order[i..], nOut, clumped, picked) == Pick(order, nOut, clumped, [])
      invariant forall k :: count <= k < output.Length ==> output[k] == old(output[k])
    {
      var index := order[i];
      assert order[i..][1..] == order[i + 1..];
      if !(clumped && count > 0 && Abs(output[count - 1] - index) == 1) {
        ghost var before := output[..count];
        output[count] := index;
        assert output[..count + 1] == before + [index];
        picked := picked + [index];
        count := count + 1;
      }
      i := i + 1;
    }
    assert Pick(order[i..], nOut, clumped, picked) == picked;
  }

  /** The index list 0, 1, ..., n - 1 that Find_n_Largest fills before sorting. */
  method IndexList(n: nat) returns (indexed: seq<nat>)
    ensures indexed == Indices(n)
  {
    indexed := [];
    var i := 0;
    while i < n
      invariant 0 <= i <= n && indexed == Indices(i)
    {
      indexed := indexed + [i];
      i := i + 1;
    }
  }

  /** Find_n_Largest's own test: the three largest of {5, 2, 9, 1, 7} are at 2, 4 and 0. */
  lemma SelectionExample()
    ensures Selection([5, 2, 9, 1, 7], 3, false) == [2, 4, 0]
  {
    RankedExample();
    PickUnclumped([2, 4, 0, 1, 3], 3, []);
    assert [2, 4, 0, 1, 3][..3] == [2, 4, 0];
  }

  /**
   * De-clumping compares a candidate with the most recent pick only: on
   * {9, 7, 0, 8} it picks 0, then 3, then 1, which is adjacent to the first pick.
   */
  lemma DeclumpComparesLastPickOnly()
    ensures Selection([9, 7, 0, 8], 3, true) == [0, 3, 1]
    ensures Abs(Selection([9, 7, 0, 8], 3, true)[2] - Selection([9, 7, 0, 8], 3, true)[0]) == 1
  {
    DeclumpRanked();
    DeclumpPick();
  }

  /** {9, 7, 0, 8} ranked by value: 9, 8, 7, 0. */
  lemma DeclumpRanked()
    ensures Ranked([9, 7, 0, 8]) == [0, 3, 1, 2]
  {
    var values := [9, 7, 0, 8];
    assert Indices(4) == [0, 1, 2, 3];
    DeclumpSort();
    assert [0, 1, 2, 3][1..] == [1, 2, 3];
    assert InsertByValue(values, 0, [3, 1, 2]) == [0, 3, 1, 2];
  }

  lemma DeclumpSort()
    ensures SortByValue([9, 7, 0, 8], [1, 2, 3]) == [3, 1, 2]
  {
    var values := [9, 7, 0, 8];
    assert SortByValue(values, [3]) == [3] by {
      assert [3][1..] == [];
    }
    assert SortByValue(values, [2, 3]) == [3, 2] by {
      assert [2, 3][1..] == [3];
      assert InsertByValue(values, 2, []) == [2];
    }
    assert [1, 2, 3][1..] == [2, 3];
    assert InsertByValue(values, 1, [2]) == [1, 2];
    assert [3, 2][1..] == [2];
  }

  lemma DeclumpPick()
    ensures Pick([0, 3, 1, 2], 3, true, []) == [0, 3, 1]
  {
    assert [0, 3, 1, 2][1..] == [3, 1, 2];
    assert [3, 1, 2][1..] == [1, 2];
    assert [1, 2][1..] == [2];
  }

  /** Equal values keep their order: the sort is stable. */
  lemma SortKeepsTies()
    ensures SortByValue([5, 5, 5], [0, 1, 2]) == [0, 1, 2]
  {
    var values := [5, 5, 5];
    assert [0, 1, 2][1..] == [1, 2];
    assert [1, 2][1..] == [2];
    assert [2][1..] == [];
  }

  /** {5, 2, 9, 1, 7} ranked by value: 9, 7, 5, 2, 1. */
  lemma RankedExample()
    ensures Ranked([5, 2, 9, 1, 7]) == [2, 4, 0, 1, 3]
  {
    var values := [5, 2, 9, 1, 7];
    assert Indices(5) == [0, 1, 2, 3, 4];
    SortExample();
    assert [0, 1, 2, 3, 4][1..] == [1, 2, 3, 4];
    InsertExampleLast();
  }

  lemma SortExample()
    ensures SortByValue([5, 2, 9, 1, 7], [1, 2, 3, 4]) == [2, 4, 1, 3]
  {
    var values := [5, 2, 9, 1, 7];
    InsertExamples();
    assert SortByValue(values, [4]) == [4] by {
      assert [4][1..] == [];
    }
    assert SortByValue(values, [3, 4]) == [4, 3] by {
      assert [3, 4][1..] == [4];
    }
    assert SortByValue(values, [2, 3, 4]) == [2, 4, 3] by {
      assert [2, 3, 4][1..] == [3, 4];
    }
    assert [1, 2, 3, 4][1..] == [2, 3, 4];
  }

  lemma InsertExamples()
    ensures InsertByValue([5, 2, 9, 1, 7], 3, [4]) == [4, 3]
    ensures InsertByValue([5, 2, 9, 1, 7], 2, [4, 3]) == [2, 4, 3]
    ensures InsertByValue([5, 2, 9, 1, 7], 1, [2, 4, 3]) == [2, 4, 1, 3]
  {
    var values := [5, 2, 9, 1, 7];
    assert InsertByValue(values, 3, [4]) == [4, 3] by {
      assert InsertByValue(values, 3, []) == [3];
      assert [4][1..] == [];
    }
    assert InsertByValue(values, 2, [4, 3]) == [2, 4, 3];
    assert InsertByValue(values, 1, [3]) == [1, 3];
    assert InsertByValue(values, 1, [4, 3]) == [4, 1, 3] by {
      assert [4, 3][1..] == [3];
    }
    assert [2, 4, 3][1..] == [4, 3];
  }

  lemma InsertExampleLast()
    ensures InsertByValue([5, 2, 9, 1, 7], 0, [2, 4, 1, 3]) == [2, 4, 0, 1, 3]
  {
    var values := [5, 2, 9, 1, 7];
    assert InsertByValue(values, 0, [1, 3]) == [0, 1, 3];
    assert InsertByValue(values, 0, [4, 1, 3]) == [4, 0, 1, 3] by {
      assert [4, 1, 3][1..] == [1, 3];
    }
    assert [2, 4, 1, 3][1..] == [4, 1, 3];
  }

}
