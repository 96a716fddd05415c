/**
 * Value-level description of the data-cloud detector of
 * figures/firmware_v5/telelogger/k_fix.h: the candidate statistics a cloud
 * would take on, the membership test, the running choice that
 * TEDACloud::runOnline makes over its clouds, and what one steady-state
 * call does to all of them.  Every `double` is a `real`.
 */
module CloudMath {

  import opened RealArith

  /** What a DataCloud holds: count, member indices, mean vector and variance. */
  datatype CloudState = CloudState(n: int, points: seq<int>, mean: seq<real>, variance: real)

  /** The bookkeeping invariant of a cloud: the count is the number of recorded indices, at least one. */
  predicate Bookkept(c: CloudState)
  {
    c.n == |c.points| && c.n >= 1
  }

  /** The cloud created for observation `key` (the DataCloud constructor). */
  function NewCloud(x: seq<real>, key: int): (c: CloudState)
    ensures Bookkept(c)
  {
    CloudState(1, [key], x, 0.0)
  }

  // ---------------------------------------------------------------------
  // Candidate statistics (getUpdatedMean, getUpdatedVarianceK3)
  // ---------------------------------------------------------------------

  /** Squared distance over the first |x| components, summed from the front. */
  function SqDist(x: seq<real>, y: seq<real>): (r: real)
    requires |x| <= |y|
    ensures r >= 0.0
    decreases |x|
  {
    if x == [] then 0.0
    else
      var i := |x| - 1;
      SqPositive(x[i] - y[i]);
      SqDist(x[..i], y) + Sq(x[i] - y[i])
  }

  /** The squared distance vanishes exactly when the vectors agree. */
  lemma {:induction false} SqDistZero(x: seq<real>, y: seq<real>)
    requires |x| == |y|
    ensures SqDist(x, y) == 0.0 <==> x == y
  {
    if x != [] {
      var i := |x| - 1;
      SqDistZero(x[..i], y[..i]);
      SqDistPrefix(x[..i], y);
      SqPositive(x[i] - y[i]);
      if x[..i] == y[..i] && x[i] == y[i] {
        assert x == y;
      }
    }
  }

  /** Only the first |x| components of `y` matter. */
  lemma {:induction false} SqDistPrefix(x: seq<real>, y: seq<real>)
    requires |x| <= |y|
    ensures SqDist(x, y) == SqDist(x, y[..|x|])
  {
    if x != [] {
      var i := |x| - 1;
      SqDistPrefix(x[..i], y);
      SqDistPrefix(x[..i], y[..|x|]);
      assert y[..|x|][..i] == y[..i];
    }
  }

  /** The squared distance is symmetric. */
  lemma {:induction false} SqDistSymmetric(x: seq<real>, y: seq<real>)
    requires |x| == |y|
    ensures SqDist(x, y) == SqDist(y, x)
  {
    if x != [] {
      var i := |x| - 1;
      SqDistPrefix(x[..i], y);
      SqDistPrefix(y[..i], x);
      SqDistSymmetric(x[..i], y[..i]);
      assert Sq(x[i] - y[i]) == Sq(y[i] - x[i]);
    }
  }

  /**
   * getUpdatedMean: the mean the cloud would have with `x` as its
   * (n+1)-th member, component by component.
   */
  function UpdatedMean(n: int, mean: seq<real>, x: seq<real>): (r: seq<real>)
    requires |x| >= |mean| && n + 1 != 0
    ensures |r| == |mean|
    ensures forall i :: 0 <= i < |mean| ==> r[i] == (n as real * mean[i] + x[i]) / ((n + 1) as real)
  {
    seq(|mean|, i requires 0 <= i < |mean| => ((n + 1 - 1) as real * mean[i] + x[i]) / ((n + 1) as real))
  }

  /** On its own mean, the candidate mean does not move (a constant stream keeps its mean). */
  lemma UpdatedMeanFixedPoint(n: int, mean: seq<real>)
    requires n >= 0
    ensures UpdatedMean(n, mean, mean) == mean
  {
    var r := UpdatedMean(n, mean, mean);
    forall i | 0 <= i < |mean| ensures r[i] == mean[i] {
      calc {
        r[i];
        (n as real * mean[i] + mean[i]) / ((n + 1) as real);
        ((n as real + 1.0) * mean[i]) / (n as real + 1.0);
        mean[i];
      }
    }
  }

  /** Each candidate component lies between the old component and the new observation's. */
  lemma UpdatedMeanBetween(n: int, mean: seq<real>, x: seq<real>, i: int)
    requires n >= 0 && |x| >= |mean| && 0 <= i < |mean|
    ensures var r := UpdatedMean(n, mean, x)[i];
      (mean[i] <= r <= x[i]) || (x[i] <= r <= mean[i])
  {
    var w := n as real;
    var r := UpdatedMean(n, mean, x)[i];
    assert r == (w * mean[i] + x[i]) / (w + 1.0);
    assert r - mean[i] == (x[i] - mean[i]) / (w + 1.0);
    assert x[i] - r == w * (x[i] - mean[i]) / (w + 1.0);
    if x[i] >= mean[i] {
      assert w * (x[i] - mean[i]) >= 0.0;
    } else {
      assert w * (mean[i] - x[i]) >= 0.0;
    }
  }

  /**
   * getUpdatedVarianceK3: the variance the cloud would have with `x` as
   * its (n+1)-th member, given the candidate mean.
   */
  function UpdatedVariance(n: int, variance: real, x: seq<real>, testMean: seq<real>): (r: real)
    requires |x| <= |testMean| && n + 1 != 0
    ensures n >= 0 && variance >= 0.0 ==> r >= 0.0
  {
    var distanceSquared := SqDist(x, testMean);
    var r := ((n + 1 - 1) as real * variance + distanceSquared) / ((n + 1) as real);
    if n >= 0 && variance >= 0.0 then
      assert (n as real) * variance >= 0.0;
      r
    else
      r
  }

  /** The candidate variance is zero only for a zero-variance cloud meeting its own candidate mean. */
  lemma UpdatedVarianceZero(n: int, variance: real, x: seq<real>, testMean: seq<real>)
    requires |x| == |testMean| && n >= 1 && variance >= 0.0
    ensures UpdatedVariance(n, variance, x, testMean) == 0.0 <==> variance == 0.0 && x == testMean
  {
    SqDistZero(x, testMean);
    var w := n as real;
    if variance > 0.0 {
      assert w * variance > 0.0;
    }
  }

  // ---------------------------------------------------------------------
  // The steady-state test of one cloud (k_fix.h lines 188-213)
  // ---------------------------------------------------------------------

  /** The right-hand side of the membership test, `(m^2 + 1) / (2 testN)`: always positive. */
  function MembershipThreshold(m: int, testN: int): (t: real)
    requires testN > 0
    ensures t > 0.0
  {
    ((m * m) as real + 1.0) / ((2 * testN) as real)
  }

  /**
   * The threshold shrinks strictly as the cloud grows.  This does not make
   * an older cloud stricter: the eccentricity shrinks by the same factor
   * `1 / testN`, so at a fixed distance and variance the verdict does not
   * depend on the count (`MembershipIgnoresCount`).
   */
  lemma ThresholdDecreasing(m: int, n1: int, n2: int)
    requires 0 < n1 < n2
    ensures MembershipThreshold(m, n1) > MembershipThreshold(m, n2)
  {
    var a := (m * m) as real + 1.0;
    assert a > 0.0;
    var d1 := (2 * n1) as real;
    var d2 := (2 * n2) as real;
    assert 0.0 < d1 < d2;
    calc {
      a / d1;
      == a * d2 / (d1 * d2);
      > { assert a * d2 > a * d1; assert d1 * d2 > 0.0; }
      a * d1 / (d1 * d2);
      == a / d2;
    }
  }

  /** What the loop body computes for one cloud against the observation. */
  datatype Verdict = Verdict(testMean: seq<real>, testVar: real, eccentricity: real, normTypicality: real, inCloud: bool)

  /** The candidate variance the test divides by (line 193). */
  function TestVariance(c: CloudState, x: seq<real>): real
    requires |x| == |c.mean| && c.n >= 0
  {
    UpdatedVariance(c.n, c.variance, x, UpdatedMean(c.n, c.mean, x))
  }

  /** A cloud the steady state can test without dividing by zero at line 204. */
  predicate Testable(c: CloudState, x: seq<real>)
  {
    |x| == |c.mean| && c.n >= 0 && TestVariance(c, x) > 0.0
  }

  /**
   * Lines 191-213 for cloud `c`: candidate mean and variance, the
   * eccentricity, the normalised typicality and the membership test.
   */
  function VerdictOf(c: CloudState, x: seq<real>, m: int, indexPoint: int): (v: Verdict)
    requires Testable(c, x) && indexPoint != 2
    ensures v.testMean == UpdatedMean(c.n, c.mean, x) && v.testVar == TestVariance(c, x)
    ensures v.inCloud <==> v.eccentricity / 2.0 <= MembershipThreshold(m, c.n + 1)
    ensures v.inCloud <==> SqDist(v.testMean, x) <= (m * m) as real * v.testVar
    ensures v.eccentricity >= 1.0 / (c.n + 1) as real
  {
    var testMean := UpdatedMean(c.n, c.mean, x);
    VerdictFrom(c.n + 1, testMean, TestVariance(c, x), SqDist(testMean, x), m, indexPoint)
  }

  /**
   * Lines 204-213 once the candidate statistics are known: the
   * eccentricity `(testVar + sumDiffSquared) / (testN testVar)`, the
   * normalised typicality `(1 - eccentricity) / (indexPoint - 2)` and the
   * membership test `eccentricity / 2 <= (m^2 + 1) / (2 testN)`.
   */
  function VerdictFrom(testN: int, testMean: seq<real>, testVar: real, sumDiffSquared: real,
                       m: int, indexPoint: int): (v: Verdict)
    requires testN > 0 && testVar > 0.0 && indexPoint != 2
    ensures v.testMean == testMean && v.testVar == testVar
    ensures v.inCloud <==> v.eccentricity / 2.0 <= MembershipThreshold(m, testN)
    ensures v.inCloud <==> sumDiffSquared <= (m * m) as real * testVar
    ensures sumDiffSquared >= 0.0 ==> v.eccentricity >= 1.0 / testN as real
  {
    assert testN as real * testVar > 0.0;
    MembershipChebyshev(testN, testVar, sumDiffSquared, m);
    assert sumDiffSquared >= 0.0 ==> Eccentricity(testN as real, testVar, sumDiffSquared) >= 1.0 / testN as real by {
      if sumDiffSquared >= 0.0 {
        EccentricitySplit(testN as real, testVar, sumDiffSquared);
      }
    }
    var eccentricity := Eccentricity(testN as real, testVar, sumDiffSquared);
    Verdict(testMean, testVar, eccentricity, (1.0 - eccentricity) / ((indexPoint - 2) as real),
            eccentricity / 2.0 <= MembershipThreshold(m, testN))
  }

  /** The eccentricity `(testVar + sumDiffSquared) / (testN testVar)` of line 204. */
  function Eccentricity(testN: real, testVar: real, sumDiffSquared: real): real
    requires testN * testVar != 0.0
  {
    (testVar + sumDiffSquared) / (testN * testVar)
  }

  /**
   * The membership test of line 213 is a Chebyshev-style bound: the
   * observation passes exactly when its squared distance to the candidate
   * mean is at most `m^2` times the candidate variance.  The count cancels.
   */
  lemma MembershipChebyshev(testN: int, testVar: real, sumDiffSquared: real, m: int)
    requires testN > 0 && testVar > 0.0
    ensures testN as real * testVar > 0.0
    ensures Eccentricity(testN as real, testVar, sumDiffSquared) / 2.0 <= MembershipThreshold(m, testN)
        <==> sumDiffSquared <= (m * m) as real * testVar
  {
    var n := testN as real;
    var mm := (m * m) as real;
    assert n * testVar > 0.0;
    var e := Eccentricity(n, testVar, sumDiffSquared);
    assert MembershipThreshold(m, testN) == (mm + 1.0) / (2.0 * n);
    calc <==> {
      e / 2.0 <= (mm + 1.0) / (2.0 * n);
      e <= (mm + 1.0) / n;
      { assert e * n * testVar == testVar + sumDiffSquared; }
      e * n * testVar <= (mm + 1.0) * testVar;
      testVar + sumDiffSquared <= (mm + 1.0) * testVar;
      sumDiffSquared <= mm * testVar;
    }
  }

  /** At a fixed squared distance and variance, the verdict is the same for every count. */
  lemma MembershipIgnoresCount(n1: int, n2: int, testVar: real, sumDiffSquared: real, m: int)
    requires n1 > 0 && n2 > 0 && testVar > 0.0
    ensures n1 as real * testVar > 0.0 && n2 as real * testVar > 0.0
    ensures Eccentricity(n1 as real, testVar, sumDiffSquared) / 2.0 <= MembershipThreshold(m, n1)
        <==> Eccentricity(n2 as real, testVar, sumDiffSquared) / 2.0 <= MembershipThreshold(m, n2)
  {
    MembershipChebyshev(n1, testVar, sumDiffSquared, m);
    MembershipChebyshev(n2, testVar, sumDiffSquared, m);
  }

  /**
   * For a positive count and variance the eccentricity is `1 / testN` plus
   * a non-negative part that vanishes exactly with the squared distance.
   */
  lemma EccentricitySplit(testN: real, testVar: real, sumDiffSquared: real)
    requires testN > 0.0 && testVar > 0.0 && sumDiffSquared >= 0.0
    ensures testN * testVar > 0.0
    ensures Eccentricity(testN, testVar, sumDiffSquared) == 1.0 / testN + sumDiffSquared / (testN * testVar)
    ensures sumDiffSquared > 0.0 ==> Eccentricity(testN, testVar, sumDiffSquared) > 1.0 / testN
    ensures sumDiffSquared == 0.0 ==> Eccentricity(testN, testVar, sumDiffSquared) == 1.0 / testN
  {
    assert testN * testVar > 0.0;
    assert testVar / (testN * testVar) == 1.0 / testN;
  }

  /**
   * The eccentricity of a test never falls below `1 / testN`, and reaches
   * it only when the observation sits exactly on the candidate mean.
   */
  lemma EccentricityAtLeastInverseCount(c: CloudState, x: seq<real>, m: int, indexPoint: int)
    requires Testable(c, x) && indexPoint != 2
    ensures var v := VerdictOf(c, x, m, indexPoint);
      || v.eccentricity > 1.0 / ((c.n + 1) as real)
      || (v.eccentricity == 1.0 / ((c.n + 1) as real) && x == v.testMean)
  {
    var v := VerdictOf(c, x, m, indexPoint);
    SqDistZero(v.testMean, x);
    EccentricitySplit((c.n + 1) as real, v.testVar, SqDist(v.testMean, x));
  }

  /**
   * A one-member cloud with zero variance always sees eccentricity 3/2 for
   * an observation off its mean, so it accepts that observation exactly
   * when `m^2 >= 2`.
   */
  lemma SingletonEccentricity(c: CloudState, x: seq<real>, m: int, indexPoint: int)
    requires c.n == 1 && c.variance == 0.0 && |x| == |c.mean| && x != c.mean && indexPoint != 2
    ensures Testable(c, x)
    ensures VerdictOf(c, x, m, indexPoint).eccentricity == 1.5
    ensures VerdictOf(c, x, m, indexPoint).inCloud <==> m * m >= 2
  {
    var d := SingletonTestVariance(c, x);
    var v := VerdictOf(c, x, m, indexPoint);
    assert v.eccentricity == (d / 8.0 + d / 4.0) / (2.0 * (d / 8.0));
    SingletonArithmetic(d);
    var w := (m * m) as real;
    assert MembershipThreshold(m, 2) == (w + 1.0) / 4.0;
  }

  /** For a one-member, zero-variance cloud: the test variance is an eighth of the squared distance. */
  lemma SingletonTestVariance(c: CloudState, x: seq<real>) returns (d: real)
    requires c.n == 1 && c.variance == 0.0 && |x| == |c.mean| && x != c.mean
    ensures d == SqDist(x, c.mean) && d > 0.0
    ensures var tm := UpdatedMean(c.n, c.mean, x);
      SqDist(tm, x) == d / 4.0 && TestVariance(c, x) == d / 8.0
  {
    var tm := UpdatedMean(1, c.mean, x);
    d := SqDist(x, c.mean);
    SqDistZero(x, c.mean);
    MidpointSqDist(x, c.mean);
    SqDistSymmetric(tm, x);
    assert TestVariance(c, x) == (1.0 * 0.0 + d / 4.0) / 2.0;
  }

  lemma SingletonArithmetic(d: real)
    requires d > 0.0
    ensures (d / 8.0 + d / 4.0) / (2.0 * (d / 8.0)) == 1.5
  {
    calc {
      (d / 8.0 + d / 4.0) / (2.0 * (d / 8.0));
      == (3.0 * d / 8.0) / (d / 4.0);
      == { assert 3.0 * d / 8.0 == 1.5 * (d / 4.0); }
      1.5;
    }
  }

  /** The midpoint of two vectors is at a quarter of their squared distance from the first. */
  lemma {:induction false} MidpointSqDist(x: seq<real>, mean: seq<real>)
    requires |x| == |mean|
    ensures SqDist(x, UpdatedMean(1, mean, x)) == SqDist(x, mean) / 4.0
  {
    var tm := UpdatedMean(1, mean, x);
    if x != [] {
      var i := |x| - 1;
      MidpointSqDist(x[..i], mean[..i]);
      assert UpdatedMean(1, mean[..i], x[..i]) == tm[..i];
      SqDistPrefix(x[..i], tm);
      SqDistPrefix(x[..i], mean);
      assert tm[i] == (mean[i] + x[i]) / 2.0;
      calc {
        Sq(x[i] - tm[i]);
        == { assert x[i] - tm[i] == (x[i] - mean[i]) / 2.0; }
        Sq((x[i] - mean[i]) / 2.0);
        == Sq(x[i] - mean[i]) / 4.0;
      }
    }
  }

  // ---------------------------------------------------------------------
  // The running choice over the clouds (lines 182-230)
  // ---------------------------------------------------------------------

  /** A float initialised to minus infinity: either no maximum yet or a finite one. */
  datatype ExtReal = NegInfinity | Finite(value: real)

  /** `x >= b` for an extended real `b`. */
  predicate AtLeast(x: real, b: ExtReal)
  {
    b.NegInfinity? || x >= b.value
  }

  /** The loop's running variables `maxTipycality`, `chosenCloud`, `nothingCloud`. */
  datatype Scan = Scan(maxTypicality: ExtReal, chosen: int, nothing: bool)

  /** The running variables before the first cloud. */
  function ScanStart(): Scan
  {
    Scan(NegInfinity, -1, true)
  }

  /**
   * One iteration of the loop at index `i` (lines 215-227).  Once a cloud
   * has passed, "nothing passed" stays false; the choice either stays or
   * moves to `i`, and a pass always moves it.
   */
  function ScanStep(s: Scan, v: Verdict, i: int): (r: Scan)
    ensures r.nothing <==> s.nothing && !v.inCloud
    ensures r.chosen == s.chosen || r.chosen == i
    ensures v.inCloud ==> r.chosen == i
  {
    if v.inCloud then Scan(s.maxTypicality, i, false)
    else if AtLeast(v.normTypicality, s.maxTypicality) && s.nothing then Scan(Finite(v.normTypicality), i, s.nothing)
    else s
  }

  /** Some cloud among the verdicts passed the membership test. */
  predicate AnyInCloud(vs: seq<Verdict>)
  {
    exists j :: 0 <= j < |vs| && vs[j].inCloud
  }

  /** The running variables after the loop has visited every verdict, in order. */
  function ScanAll(vs: seq<Verdict>): (r: Scan)
    ensures -1 <= r.chosen < |vs|
    decreases |vs|
  {
    if vs == [] then ScanStart()
    else ScanStep(ScanAll(vs[..|vs| - 1]), vs[|vs| - 1], |vs| - 1)
  }

  /**
   * What the running choice means.  If some cloud passes, the choice is
   * the highest passing index.  If none passes, it is the last index
   * attaining the maximal normalised typicality (ties go to the later
   * index, because the comparison is `>=`), and that maximum is what the
   * running variable holds; it is -1 only when there is no cloud at all.
   */
  lemma {:induction false} ScanAllChoice(vs: seq<Verdict>)
    ensures var s := ScanAll(vs);
      && (s.nothing <==> !AnyInCloud(vs))
      && (!s.nothing ==>
            && 0 <= s.chosen < |vs| && vs[s.chosen].inCloud
            && forall j :: s.chosen < j < |vs| ==> !vs[j].inCloud)
      && (s.nothing && |vs| == 0 ==> s.chosen == -1 && s.maxTypicality == NegInfinity)
      && (s.nothing && |vs| > 0 ==>
            && 0 <= s.chosen < |vs|
            && s.maxTypicality == Finite(vs[s.chosen].normTypicality)
            && (forall j :: 0 <= j < |vs| ==> vs[j].normTypicality <= vs[s.chosen].normTypicality)
            && (forall j :: s.chosen < j < |vs| ==> vs[j].normTypicality < vs[s.chosen].normTypicality))
    decreases |vs|
  {
    if vs != [] {
      var i := |vs| - 1;
      ScanAllChoice(vs[..i]);
      assert forall j :: 0 <= j < i ==> vs[..i][j] == vs[j];
    }
  }

  /** Visiting one more verdict is one more loop iteration. */
  lemma ScanAllExtend(vs: seq<Verdict>, i: int)
    requires 0 <= i < |vs|
    ensures ScanAll(vs[..i + 1]) == ScanStep(ScanAll(vs[..i]), vs[i], i)
  {
    assert vs[..i + 1][..i] == vs[..i];
  }

  /** std::max_element: the first index holding the largest value. */
  function FirstArgMax(s: seq<real>): (r: int)
    requires |s| > 0
    ensures 0 <= r < |s|
    ensures forall j :: 0 <= j < |s| ==> s[j] <= s[r]
    ensures forall j :: 0 <= j < r ==> s[j] < s[r]
    decreases |s|
  {
    if |s| == 1 then 0
    else
      var p := FirstArgMax(s[..|s| - 1]);
      assert forall j :: 0 <= j < |s| - 1 ==> s[..|s| - 1][j] == s[j];
      if s[|s| - 1] > s[p] then |s| - 1 else p
  }

  // ---------------------------------------------------------------------
  // Forces (calculate_force, adjust_variance_with_force)
  // ---------------------------------------------------------------------

  /** The force `1 / (1 + |point - center|)`: in (0, 1], and 1 only at the center. */
  function Force(point: real, center: real): (f: real)
    ensures 0.0 < f <= 1.0
    ensures f == 1.0 <==> point == center
  {
    var distance := Abs(point - center);
    assert 1.0 / (1.0 + distance) <= 1.0;
    assert distance > 0.0 ==> 1.0 / (1.0 + distance) < 1.0;
    1.0 / (1.0 + distance)
  }

  /**
   * The sum of the forces of the components of `data`, each against the
   * first component of `mean`: positive and at most |data| when there is a
   * component, zero otherwise.
   */
  function TotalForce(data: seq<real>, mean: seq<real>): (t: real)
    requires |data| > 0 ==> |mean| > 0
    ensures |data| == 0 ==> t == 0.0
    ensures |data| > 0 ==> 0.0 < t <= |data| as real
    decreases |data|
  {
    if data == [] then 0.0
    else TotalForce(data[..|data| - 1], mean) + Force(data[|data| - 1], mean[0])
  }

  // ---------------------------------------------------------------------
  // One steady-state call of runOnline on all clouds
  // ---------------------------------------------------------------------

  /** The clouds `0 .. numCloud-1` exist, match the observation's dimension and can be tested. */
  predicate SteadyReady(cs: seq<CloudState>, x: seq<real>, numCloud: int)
  {
    && 1 <= numCloud <= |cs|
    && forall i :: 0 <= i < numCloud ==> Testable(cs[i], x)
  }

  /** The verdicts of the first numCloud clouds, each against its own committed statistics. */
  function Verdicts(cs: seq<CloudState>, x: seq<real>, m: int, indexPoint: int, numCloud: int): (vs: seq<Verdict>)
    requires SteadyReady(cs, x, numCloud) && indexPoint != 2
    ensures |vs| == numCloud
    ensures forall i :: 0 <= i < numCloud ==> vs[i] == VerdictOf(cs[i], x, m, indexPoint)
  {
    seq(numCloud, i requires 0 <= i < numCloud => VerdictOf(cs[i], x, m, indexPoint))
  }

  /** alfa: the normalised typicalities of the verdicts. */
  function Typicalities(vs: seq<Verdict>): (alfa: seq<real>)
    ensures |alfa| == |vs| && forall i :: 0 <= i < |vs| ==> alfa[i] == vs[i].normTypicality
  {
    seq(|vs|, i requires 0 <= i < |vs| => vs[i].normTypicality)
  }

  /** A passing cloud takes the candidate statistics and the observation's index (lines 217-219). */
  function Commit(c: CloudState, v: Verdict, indexPoint: int): (r: CloudState)
    ensures Bookkept(c) ==> Bookkept(r)
  {
    CloudState(c.n + 1, c.points + [indexPoint], v.testMean, v.testVar)
  }

  /** Every cloud whose verdict passes is committed; the others are left as they are. */
  function CommitPassing(cs: seq<CloudState>, vs: seq<Verdict>, indexPoint: int): (r: seq<CloudState>)
    ensures |r| == |cs|
    ensures forall j :: 0 <= j < |cs| ==>
      r[j] == if j < |vs| && vs[j].inCloud then Commit(cs[j], vs[j], indexPoint) else cs[j]
  {
    seq(|cs|, j requires 0 <= j < |cs| =>
      if j < |vs| && vs[j].inCloud then Commit(cs[j], vs[j], indexPoint) else cs[j])
  }

  /**
   * The forced-outlier reinitialisation (lines 262-268): the mean becomes
   * the observation, the variance grows by the total force of the
   * observation's components against its own first component, and the
   * index is recorded.
   */
  function Reinitialise(c: CloudState, x: seq<real>, indexPoint: int): (r: CloudState)
    ensures Bookkept(c) ==> Bookkept(r)
    ensures r.mean == x && r.points == c.points + [indexPoint]
    ensures |x| > 0 ==> c.variance < r.variance <= c.variance + |x| as real
  {
    CloudState(c.n + 1, c.points + [indexPoint], x, c.variance + TotalForce(x, x))
  }

  /** What one steady-state call leaves behind: the clouds, alfa and the returned index. */
  datatype Step = Step(clouds: seq<CloudState>, alfa: seq<real>, chosen: int)

  /**
   * One steady-state call of runOnline (lines 182-305): all passing clouds
   * are committed and the running choice is returned; if none passes and
   * the observation is a forced outlier, the first cloud maximising alfa is
   * reinitialised instead.
   */
  function SteadyStep(cs: seq<CloudState>, x: seq<real>, m: int, numCloud: int, isOutlier: bool, indexPoint: int): (r: Step)
    requires SteadyReady(cs, x, numCloud) && indexPoint != 2
    ensures |r.clouds| == |cs| && |r.alfa| == numCloud
    ensures forall j :: numCloud <= j < |cs| ==> r.clouds[j] == cs[j]
  {
    var vs := Verdicts(cs, x, m, indexPoint, numCloud);
    var s := ScanAll(vs);
    var committed := CommitPassing(cs, vs, indexPoint);
    var alfa := Typicalities(vs);
    if s.nothing && isOutlier then
      var t := FirstArgMax(alfa);
      Step(committed[t := Reinitialise(committed[t], x, indexPoint)], alfa, s.chosen)
    else
      Step(committed, alfa, s.chosen)
  }

  // ---------------------------------------------------------------------
  // deleteCloud
  // ---------------------------------------------------------------------

  /** deleteCloud's search: the first cloud whose indices equal `points`, or |cs| if none. */
  function IndexOfPoints(cs: seq<CloudState>, points: seq<int>): (r: int)
    ensures 0 <= r <= |cs|
    ensures r < |cs| ==> cs[r].points == points
    ensures forall j :: 0 <= j < r ==> cs[j].points != points
    decreases |cs|
  {
    if cs == [] then 0
    else if cs[0].points == points then 0
    else 1 + IndexOfPoints(cs[1..], points)
  }
}

/** Properties of one steady-state call. */
module CloudFacts {

  import opened CloudMath

  /** The count still matches the recorded indices in every cloud, and alfa has one entry per tested cloud. */
  lemma SteadyKeepsBookkeeping(cs: seq<CloudState>, x: seq<real>, m: int, numCloud: int, isOutlier: bool, indexPoint: int)
    requires SteadyReady(cs, x, numCloud) && indexPoint != 2
    ensures var step := SteadyStep(cs, x, m, numCloud, isOutlier, indexPoint);
      && |step.clouds| == |cs| && |step.alfa| == numCloud
      && forall j :: 0 <= j < |cs| && Bookkept(cs[j]) ==> Bookkept(step.clouds[j])
  {
    var vs := Verdicts(cs, x, m, indexPoint, numCloud);
    var committed := CommitPassing(cs, vs, indexPoint);
    assert forall j :: 0 <= j < |cs| && Bookkept(cs[j]) ==> Bookkept(committed[j]);
  }

  /** The returned index always names one of the tested clouds: the -1 sentinel never comes back. */
  lemma SteadyChoiceInRange(cs: seq<CloudState>, x: seq<real>, m: int, numCloud: int, isOutlier: bool, indexPoint: int)
    requires SteadyReady(cs, x, numCloud) && indexPoint != 2
    ensures 0 <= SteadyStep(cs, x, m, numCloud, isOutlier, indexPoint).chosen < numCloud
  {
    var vs := Verdicts(cs, x, m, indexPoint, numCloud);
    ScanAllChoice(vs);
  }

  /**
   * When some cloud passes, every passing cloud takes its candidate mean
   * and variance and the observation's index, every other cloud is left
   * alone, and the highest passing index is returned.
   */
  lemma SteadyWhenSomeCloudPasses(cs: seq<CloudState>, x: seq<real>, m: int, numCloud: int, isOutlier: bool, indexPoint: int)
    requires SteadyReady(cs, x, numCloud) && indexPoint != 2
    requires AnyInCloud(Verdicts(cs, x, m, indexPoint, numCloud))
    ensures var vs := Verdicts(cs, x, m, indexPoint, numCloud);
      var step := SteadyStep(cs, x, m, numCloud, isOutlier, indexPoint);
      && 0 <= step.chosen < numCloud && vs[step.chosen].inCloud
      && (forall j :: step.chosen < j < numCloud ==> !vs[j].inCloud)
      && (forall j :: 0 <= j < numCloud && vs[j].inCloud ==>
            && step.clouds[j].n == cs[j].n + 1
            && step.clouds[j].points == cs[j].points + [indexPoint]
            && step.clouds[j].mean == UpdatedMean(cs[j].n, cs[j].mean, x)
            && step.clouds[j].variance == TestVariance(cs[j], x))
      && (forall j :: 0 <= j < |cs| && !(j < numCloud && vs[j].inCloud) ==> step.clouds[j] == cs[j])
  {
    ScanAllChoice(Verdicts(cs, x, m, indexPoint, numCloud));
  }

  /**
   * When no cloud passes and the observation is not a forced outlier,
   * nothing changes and the returned index is the last one attaining the
   * maximal normalised typicality.
   */
  lemma SteadyWhenNoCloudPasses(cs: seq<CloudState>, x: seq<real>, m: int, numCloud: int, indexPoint: int)
    requires SteadyReady(cs, x, numCloud) && indexPoint != 2
    requires !AnyInCloud(Verdicts(cs, x, m, indexPoint, numCloud))
    ensures var step := SteadyStep(cs, x, m, numCloud, false, indexPoint);
      && step.clouds == cs
      && 0 <= step.chosen < numCloud
      && (forall j :: 0 <= j < numCloud ==> step.alfa[j] <= step.alfa[step.chosen])
      && (forall j :: step.chosen < j < numCloud ==> step.alfa[j] < step.alfa[step.chosen])
  {
    var vs := Verdicts(cs, x, m, indexPoint, numCloud);
    var committed := CommitPassing(cs, vs, indexPoint);
    assert committed == cs;
    ScanAllChoice(vs);
  }

  /**
   * When no cloud passes and the observation is a forced outlier, exactly
   * the first cloud maximising alfa changes: its mean becomes the
   * observation, its variance grows by more than zero and at most the
   * dimension, and it records the index.  The returned index is still the
   * running choice, the last maximiser.
   */
  lemma SteadyForcedOutlier(cs: seq<CloudState>, x: seq<real>, m: int, numCloud: int, indexPoint: int)
    requires SteadyReady(cs, x, numCloud) && indexPoint != 2
    requires !AnyInCloud(Verdicts(cs, x, m, indexPoint, numCloud))
    ensures var step := SteadyStep(cs, x, m, numCloud, true, indexPoint);
      var t := FirstArgMax(step.alfa);
      && (forall j :: 0 <= j < numCloud ==> step.alfa[j] <= step.alfa[t])
      && (forall j :: 0 <= j < t ==> step.alfa[j] < step.alfa[t])
      && step.clouds[t].mean == x
      && step.clouds[t].n == cs[t].n + 1
      && step.clouds[t].points == cs[t].points + [indexPoint]
      && (|x| > 0 ==> cs[t].variance < step.clouds[t].variance <= cs[t].variance + |x| as real)
      && (forall j :: 0 <= j < |cs| && j != t ==> step.clouds[j] == cs[j])
      && step.chosen == SteadyStep(cs, x, m, numCloud, false, indexPoint).chosen
  {
    var vs := Verdicts(cs, x, m, indexPoint, numCloud);
    var committed := CommitPassing(cs, vs, indexPoint);
    assert committed == cs;
    ScanAllChoice(vs);
    var alfa := Typicalities(vs);
    var t := FirstArgMax(alfa);
    var step := SteadyStep(cs, x, m, numCloud, true, indexPoint);
    assert step == Step(cs[t := Reinitialise(cs[t], x, indexPoint)], alfa, ScanAll(vs).chosen);
    assert step.clouds[t] == Reinitialise(cs[t], x, indexPoint);
  }

  /** A cloud whose variance was non-negative keeps it so. */
  lemma SteadyKeepsVarianceNonNegative(cs: seq<CloudState>, x: seq<real>, m: int, numCloud: int, isOutlier: bool, indexPoint: int)
    requires SteadyReady(cs, x, numCloud) && indexPoint != 2
    ensures var step := SteadyStep(cs, x, m, numCloud, isOutlier, indexPoint);
      forall j :: 0 <= j < |cs| && cs[j].variance >= 0.0 ==> step.clouds[j].variance >= 0.0
  {
  }

  /** The first numCloud clouds each hold one observation, have zero variance and differ from `x`. */
  predicate Singletons(cs: seq<CloudState>, x: seq<real>, numCloud: int)
  {
    && 1 <= numCloud <= |cs|
    && forall i :: 0 <= i < numCloud ==>
         cs[i].n == 1 && cs[i].variance == 0.0 && |x| == |cs[i].mean| && x != cs[i].mean
  }

  /**
   * Against one-member clouds every test sees the same eccentricity 3/2:
   * all pass when `m^2 >= 2`, none when `m^2 < 2`, and all typicalities tie.
   */
  lemma SingletonVerdicts(cs: seq<CloudState>, x: seq<real>, m: int, indexPoint: int, numCloud: int)
    requires Singletons(cs, x, numCloud) && indexPoint != 2
    ensures SteadyReady(cs, x, numCloud)
    ensures var vs := Verdicts(cs, x, m, indexPoint, numCloud);
      forall i :: 0 <= i < numCloud ==>
        && (vs[i].inCloud <==> m * m >= 2)
        && vs[i].normTypicality == (1.0 - 1.5) / ((indexPoint - 2) as real)
  {
    forall i | 0 <= i < numCloud
      ensures Testable(cs[i], x)
      ensures VerdictOf(cs[i], x, m, indexPoint).eccentricity == 1.5
      ensures VerdictOf(cs[i], x, m, indexPoint).inCloud <==> m * m >= 2
    {
      SingletonEccentricity(cs[i], x, m, indexPoint);
    }
  }

  /**
   * With `m^2 >= 2` one-member clouds accept any new observation: every
   * tested cloud is committed and the last one is returned.
   */
  lemma SingletonsAllAccept(cs: seq<CloudState>, x: seq<real>, m: int, indexPoint: int, numCloud: int)
    requires Singletons(cs, x, numCloud) && indexPoint != 2 && m * m >= 2
    ensures SteadyReady(cs, x, numCloud)
    ensures var step := SteadyStep(cs, x, m, numCloud, false, indexPoint);
      && step.chosen == numCloud - 1
      && forall j :: 0 <= j < numCloud ==>
           step.clouds[j].n == 2 && step.clouds[j].points == cs[j].points + [indexPoint]
  {
    SingletonVerdicts(cs, x, m, indexPoint, numCloud);
    var vs := Verdicts(cs, x, m, indexPoint, numCloud);
    assert vs[numCloud - 1].inCloud;
    SteadyWhenSomeCloudPasses(cs, x, m, numCloud, false, indexPoint);
  }

  /**
   * When no verdict passes and all typicalities tie, the running choice is
   * the last index while std::max_element picks the first.
   */
  lemma TiedVerdicts(vs: seq<Verdict>, tie: real)
    requires |vs| > 0 && !AnyInCloud(vs)
    requires forall j :: 0 <= j < |vs| ==> vs[j].normTypicality == tie
    ensures ScanAll(vs).chosen == |vs| - 1
    ensures FirstArgMax(Typicalities(vs)) == 0
  {
    ScanAllChoice(vs);
    var alfa := Typicalities(vs);
    var t := FirstArgMax(alfa);
    assert alfa[0] == alfa[t];
  }

  /**
   * With `m^2 < 2` no one-member cloud accepts, all typicalities tie, and a
   * forced outlier reinitialises cloud 0 while the call returns the last
   * tested index.
   */
  lemma SingletonsTieOnOutlier(cs: seq<CloudState>, x: seq<real>, m: int, indexPoint: int, numCloud: int)
    requires Singletons(cs, x, numCloud) && indexPoint != 2 && m * m < 2
    ensures SteadyReady(cs, x, numCloud)
    ensures var step := SteadyStep(cs, x, m, numCloud, true, indexPoint);
      && FirstArgMax(step.alfa) == 0 && step.chosen == numCloud - 1
      && step.clouds[0].mean == x
      && forall j :: 1 <= j < |cs| ==> step.clouds[j] == cs[j]
  {
    SingletonVerdicts(cs, x, m, indexPoint, numCloud);
    var vs := Verdicts(cs, x, m, indexPoint, numCloud);
    assert !AnyInCloud(vs);
    TiedVerdicts(vs, (1.0 - 1.5) / ((indexPoint - 2) as real));
    SteadyForcedOutlier(cs, x, m, numCloud, indexPoint);
  }

  /**
   * Three one-member clouds at 0, 100 and 200 with `m = 3`: the fourth
   * observation 1 joins all three clouds and the call returns 2.
   */
  lemma SeparatedCloudsAllAccept()
    ensures var cs := [NewCloud([0.0], 1), NewCloud([100.0], 2), NewCloud([200.0], 3)];
      && SteadyReady(cs, [1.0], 3)
      && var step := SteadyStep(cs, [1.0], 3, 3, false, 4);
      && step.chosen == 2
      && step.clouds[0].points == [1, 4] && step.clouds[1].points == [2, 4] && step.clouds[2].points == [3, 4]
  {
    var cs := [NewCloud([0.0], 1), NewCloud([100.0], 2), NewCloud([200.0], 3)];
    assert [1.0] != [0.0] && [1.0] != [100.0] && [1.0] != [200.0];
    SingletonsAllAccept(cs, [1.0], 3, 4, 3);
  }

  /**
   * The same clouds with `m = 1` and a forced outlier at 1000: cloud 0 is
   * reinitialised while the call returns 2.
   */
  lemma ForcedOutlierOnTiesReturnsAnotherCloud()
    ensures var cs := [NewCloud([0.0], 1), NewCloud([100.0], 2), NewCloud([200.0], 3)];
      && SteadyReady(cs, [1000.0], 3)
      && var step := SteadyStep(cs, [1000.0], 1, 3, true, 4);
      && FirstArgMax(step.alfa) == 0 && step.chosen == 2
      && step.clouds[0].mean == [1000.0] && step.clouds[1] == cs[1] && step.clouds[2] == cs[2]
  {
    var cs := [NewCloud([0.0], 1), NewCloud([100.0], 2), NewCloud([200.0], 3)];
    assert [1000.0] != [0.0] && [1000.0] != [100.0] && [1000.0] != [200.0];
    SingletonsTieOnOutlier(cs, [1000.0], 1, 4, 3);
  }
}
