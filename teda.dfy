/**
 * The scalar TEDA detector (firmware_v5/telelogger/teda.h).
 *
 * Every `float` of the source is a `real` here.  The three statistics of the
 * detector are written as functions of the fields they read, passed in as
 * arguments, so that the state `run` reaches can be described exactly:
 * `calcVariance` runs after `mean` has already been overwritten.
 */
module Teda {

  import opened RealArith

  /** Sum of a sequence, accumulated from the front. */
  function Sum(s: seq<real>): real
    decreases |s|
  {
    if s == [] then 0.0 else Sum(s[..|s| - 1]) + s[|s| - 1]
  }

  /** Arithmetic average of a non-empty sequence. */
  function Average(s: seq<real>): real
    requires |s| > 0
  {
    Sum(s) / (|s| as real)
  }

  /** A constant stream sums to its length times the constant. */
  lemma {:induction false} SumOfConstant(s: seq<real>, v: real)
    requires forall i :: 0 <= i < |s| ==> s[i] == v
    ensures Sum(s) == (|s| as real) * v
  {
    if s != [] {
      SumOfConstant(s[..|s| - 1], v);
    }
  }

  /** The running mean of a constant stream is that constant. */
  lemma AverageOfConstant(s: seq<real>, v: real)
    requires |s| > 0
    requires forall i :: 0 <= i < |s| ==> s[i] == v
    ensures Average(s) == v
  {
    SumOfConstant(s, v);
  }

  /**
   * calcMean: the mean after one more value `x`, where `k` is the count
   * including `x`.  It is the Welford step `mean + (x - mean) / k`, and it
   * reaches `x` exactly when the old mean already was `x`.
   */
  function CalcMean(k: real, mean: real, x: real): (r: real)
    requires k != 0.0
    ensures r == mean + (x - mean) / k
    ensures r - x == ((k - 1.0) / k) * (mean - x)
    ensures k > 1.0 ==> (r == x <==> mean == x)
  {
    assert ((k - 1.0) / k) * mean + (1.0 / k) * x == mean + (x - mean) / k;
    assert k > 1.0 ==> (k - 1.0) / k > 0.0;
    ((k - 1.0) / k) * mean + (1.0 / k) * x
  }

  /**
   * Folding one more value into an average through CalcMean, with the count
   * that includes it, gives the average of the longer stream.
   */
  lemma MeanTracksAverage(s: seq<real>, x: real)
    requires |s| > 0
    ensures CalcMean((|s| + 1) as real, Average(s), x) == Average(s + [x])
  {
    var n := |s| as real;
    assert (s + [x])[..|s|] == s;
    assert Sum(s + [x]) == Sum(s) + x;
    calc {
      CalcMean(n + 1.0, Average(s), x);
      Sum(s) / n + (x - Sum(s) / n) / (n + 1.0);
      { assert Sum(s) / n * (n + 1.0) + x - Sum(s) / n == Sum(s) + x; }
      (Sum(s) + x) / (n + 1.0);
    }
  }

  /**
   * calcVariance, given the already updated mean.  With a count above one
   * and a non-negative variance it never goes negative, and it is zero
   * exactly when the old variance was zero and `x` equals the mean.
   */
  function CalcVariance(k: real, mean: real, variance: real, x: real): (r: real)
    requires k != 0.0 && k != 1.0
    ensures k > 1.0 && variance >= 0.0 ==> r >= 0.0
    ensures k > 1.0 && variance >= 0.0 ==> (r == 0.0 <==> variance == 0.0 && x == mean)
  {
    var distanceSquared := Sq(x - mean);
    var r := ((k - 1.0) / k) * variance + distanceSquared * (1.0 / (k - 1.0));
    if k > 1.0 && variance >= 0.0 then
      VarianceTermsNonNegative(k, variance, x - mean);
      r
    else
      r
  }

  /** The two terms of calcVariance are non-negative, and each is zero only in the obvious case. */
  lemma VarianceTermsNonNegative(k: real, variance: real, d: real)
    requires k > 1.0 && variance >= 0.0
    ensures ((k - 1.0) / k) * variance >= 0.0
    ensures variance != 0.0 ==> ((k - 1.0) / k) * variance > 0.0
    ensures Sq(d) * (1.0 / (k - 1.0)) >= 0.0
    ensures d != 0.0 ==> Sq(d) * (1.0 / (k - 1.0)) > 0.0
    ensures d == 0.0 ==> Sq(d) * (1.0 / (k - 1.0)) == 0.0
  {
    assert (k - 1.0) / k > 0.0;
    assert 1.0 / (k - 1.0) > 0.0;
    SqPositive(d);
  }

  /**
   * calcEccentricity: zero when `x` sits on the mean, otherwise above `1/k`
   * for a positive variance.
   */
  function CalcEccentricity(k: real, mean: real, variance: real, x: real): (r: real)
    requires k != 0.0
    requires mean != x ==> variance != 0.0
    ensures mean == x ==> r == 0.0
    ensures k > 0.0 && variance > 0.0 && mean != x ==> r > 1.0 / k
  {
    var mean2 := Sq(mean - x);
    SqPositive(mean - x);
    if mean2 == 0.0 then 0.0
    else
      assert k > 0.0 && variance > 0.0 ==> mean2 / (k * variance) > 0.0;
      1.0 / k + mean2 / (k * variance)
  }

  /** The outlier threshold `(m^2 + 1) / (2k)` of the active branch. */
  function OutlierThreshold(m: real, k: real): (t: real)
    requires k != 0.0
    ensures k > 0.0 ==> t > 0.0
  {
    (m * m + 1.0) / (2.0 * k)
  }

  /** The detector object: every field the source keeps except the unused window threshold. */
  class TEDA {
    var k: real
    var m: real
    var variance: real
    var eccentricity: real
    var mean: real
    var windowCount: int
    var tempo: int
    var normEccentricity: real
    var outlierThreshold: real
    var lastValue: real

    /** The values `run` has seen since construction or the last resetWindow. */
    ghost var window: seq<real>

    /**
     * `k` counts the window plus one; `mean` is the window's average and
     * `lastValue` its last value; a zero variance means the stream has sat
     * on its mean.
     */
    ghost predicate Valid()
      reads this
    {
      && k == (|window| + 1) as real
      && variance >= 0.0
      && tempo >= |window|
      && (|window| == 0 ==> mean == 0.0 && variance == 0.0)
      && (|window| > 0 ==> mean == Average(window) && lastValue == window[|window| - 1])
      && (|window| > 0 && variance == 0.0 ==> mean == lastValue)
    }

    /** TEDA(threshold); the source leaves the last three scalars uninitialised, here they start at 0. */
    constructor (threshold: real)
      ensures Valid()
      ensures m == threshold && k == 1.0 && mean == 0.0 && variance == 0.0
      ensures tempo == 0 && windowCount == 0 && window == []
    {
      k := 1.0;
      m := threshold;
      variance := 0.0;
      eccentricity := 0.0;
      mean := 0.0;
      windowCount := 0;
      tempo := 0;
      normEccentricity := 0.0;
      outlierThreshold := 0.0;
      lastValue := 0.0;
      window := [];
    }

    /** resetWindow: restart the implicit cluster at `x`, keeping the step counter and threshold. */
    method ResetWindow(x: real)
      requires Valid()
      modifies this
      ensures Valid()
      ensures k == 1.0 && variance == 0.0 && mean == 0.0 && windowCount == 0 && lastValue == x
      ensures window == []
      ensures tempo == old(tempo) && m == old(m)
      ensures eccentricity == old(eccentricity) && normEccentricity == old(normEccentricity)
      ensures outlierThreshold == old(outlierThreshold)
    {
      k := 1.0;
      variance := 0.0;
      mean := 0.0;
      windowCount := 0;
      lastValue := x;
      window := [];
    }

    /**
     * run: classify `x` (1 = outlier, 0 = inlier) and fold it into the
     * statistics.  Every branch advances `tempo` and `k` by one and records
     * `x` as the last value; only the active branch touches the
     * eccentricity fields.
     */
    method Run(x: real) returns (r: int)
      requires Valid()
      modifies this
      ensures Valid()
      ensures tempo == old(tempo) + 1 && k == old(k) + 1.0 && lastValue == x
      ensures window == old(window) + [x]
      ensures m == old(m) && windowCount == old(windowCount)
      ensures r == 0 || r == 1
      ensures mean == Average(window)
      // first value since construction or reset
      ensures old(k) == 1.0 ==>
        && mean == x && variance == 0.0
        && (r == 1 <==> old(tempo) == 0)
        && eccentricity == old(eccentricity) && normEccentricity == old(normEccentricity)
        && outlierThreshold == old(outlierThreshold)
      // later values: the recurrences, the variance using the new mean
      ensures old(k) != 1.0 ==>
        && mean == CalcMean(old(k), old(mean), x)
        && variance == CalcVariance(old(k), mean, old(variance), x)
      // repeat of the last value on a zero-variance stream
      ensures old(k) != 1.0 && x == old(lastValue) && old(variance) == 0.0 ==>
        && r == 0 && mean == x && variance == 0.0
        && eccentricity == old(eccentricity) && normEccentricity == old(normEccentricity)
        && outlierThreshold == old(outlierThreshold)
      // active branch: the eccentricity test
      ensures old(k) != 1.0 && !(x == old(lastValue) && old(variance) == 0.0) ==>
        && (mean != x ==> variance > 0.0)
        && eccentricity == CalcEccentricity(old(k), mean, variance, x)
        && normEccentricity == eccentricity / 2.0
        && outlierThreshold == OutlierThreshold(m, old(k))
        && (r == 1 <==> normEccentricity > outlierThreshold)
    {
      ghost var w := window;
      tempo := tempo + 1;
      window := window + [x];
      if k == 1.0 {
        mean := x;
        variance := 0.0;
        k := k + 1.0;
        lastValue := x;
        assert window == [x];
        AverageOfConstant(window, x);
        r := if tempo == 1 then 1 else 0;
      } else if x == lastValue && variance == 0.0 {
        MeanTracksAverage(w, x);
        mean := CalcMean(k, mean, x);
        variance := CalcVariance(k, mean, variance, x);
        k := k + 1.0;
        lastValue := x;
        r := 0;
      } else {
        MeanTracksAverage(w, x);
        mean := CalcMean(k, mean, x);
        variance := CalcVariance(k, mean, variance, x);
        eccentricity := CalcEccentricity(k, mean, variance, x);
        normEccentricity := eccentricity / 2.0;
        outlierThreshold := OutlierThreshold(m, k);
        r := if normEccentricity > outlierThreshold then 1 else 0;
        k := k + 1.0;
        lastValue := x;
      }
    }
  }

  /**
   * A constant stream on a fresh detector: the first value is flagged, the
   * repeats that follow take the zero-variance branch and are not.
   */
  method ConstantStream(threshold: real, v: real) returns (first: int, second: int, third: int)
    ensures first == 1 && second == 0 && third == 0
  {
    var detector := new TEDA(threshold);
    first := detector.Run(v);
    second := detector.Run(v);
    assert detector.mean == v && detector.variance == 0.0;
    third := detector.Run(v);
  }

  /**
   * After at least one run, the first value after a reset is not flagged:
   * the reset leaves `tempo` alone, so the `k == 1` branch sees it non-zero.
   */
  method ResetThenRun(threshold: real, before: real, seed: real, x: real) returns (r: int)
    ensures r == 0
  {
    var detector := new TEDA(threshold);
    var ignored := detector.Run(before);
    detector.ResetWindow(seed);
    r := detector.Run(x);
  }

  /**
   * A reset before the first run does not change the answer to the first
   * value: `tempo` is still 0, so the `k == 1` branch flags it.
   */
  method ResetBeforeFirstRun(threshold: real, seed: real, x: real) returns (r: int)
    ensures r == 1
  {
    var detector := new TEDA(threshold);
    detector.ResetWindow(seed);
    r := detector.Run(x);
  }
}
