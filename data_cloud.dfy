/**
 * One data cloud of figures/firmware_v5/telelogger/k_fix.h (class
 * DataCloud): a member count, the indices of the observations it holds, a
 * mean vector and a scalar variance.  The source's field `var` is called
 * `variance` here; `pertinency` is never read and is not kept.
 */
module DataClouds {

  import opened CloudMath
  import opened IndexLists

  class DataCloud {
    var n: int
    var points: seq<int>
    var mean: seq<real>
    var variance: real

    /** The cloud as a value. */
    function State(): CloudState
      reads this
    {
      CloudState(n, points, mean, variance)
    }

    /** The count is the number of recorded indices, and a cloud is never empty. */
    ghost predicate Valid()
      reads this
    {
      Bookkept(State())
    }

    /** DataCloud(x, point_key): a one-member cloud sitting on `x` with zero variance. */
    constructor (x: seq<real>, pointKey: int)
      ensures Valid()
      ensures State() == NewCloud(x, pointKey)
      ensures n == 1 && points == [pointKey] && mean == x && variance == 0.0
    {
      n := 1;
      points := [pointKey];
      mean := x;
      variance := 0.0;
    }

    /**
     * getUpdatedMean: the mean the cloud would have with `x` as one more
     * member, one component per component of the current mean; the cloud
     * itself is not touched.
     */
    method GetUpdatedMean(x: seq<real>) returns (updatedMean: seq<real>)
      requires |x| >= |mean| && n + 1 != 0
      ensures updatedMean == UpdatedMean(n, mean, x)
    {
      var newN := n + 1;
      updatedMean := seq(|mean|, _ => 0.0);
      var i := 0;
      while i < |mean|
        invariant 0 <= i <= |mean| && |updatedMean| == |mean|
        invariant forall j :: 0 <= j < i ==> updatedMean[j] == UpdatedMean(n, mean, x)[j]
      {
        updatedMean := updatedMean[i := ((newN - 1) as real * mean[i] + x[i]) / (newN as real)];
        i := i + 1;
      }
    }

    /**
     * getUpdatedVarianceK3: the variance the cloud would have with `x` as
     * one more member, `(n var + ||x - testMean||^2) / (n + 1)`, never
     * negative for a non-negative variance; the cloud is not touched.
     */
    method GetUpdatedVarianceK3(x: seq<real>, testMean: seq<real>) returns (r: real)
      requires |x| <= |testMean| && n + 1 != 0
      ensures r == UpdatedVariance(n, variance, x, testMean)
      ensures r == (n as real * variance + SqDist(x, testMean)) / ((n + 1) as real)
      ensures n >= 0 && variance >= 0.0 ==> r >= 0.0
    {
      var newN := n + 1;
      var distanceSquared := 0.0;
      var i := 0;
      while i < |x|
        invariant 0 <= i <= |x|
        invariant distanceSquared == SqDist(x[..i], testMean)
      {
        var diff := x[i] - testMean[i];
        assert x[..i + 1][..i] == x[..i];
        distanceSquared := distanceSquared + diff * diff;
        i := i + 1;
      }
      assert x[..|x|] == x;
      r := ((newN - 1) as real * variance + distanceSquared) / (newN as real);
    }

    /** updateStats: take over a new mean and variance; count and indices stay. */
    method UpdateStats(newMean: seq<real>, newVariance: real)
      modifies this
      ensures mean == newMean && variance == newVariance
      ensures n == old(n) && points == old(points)
      ensures old(Valid()) ==> Valid()
    {
      mean := newMean;
      variance := newVariance;
    }

    /** addPoint: record one more observation index; the count follows. */
    method AddPoint(newPoint: int)
      modifies this
      ensures points == old(points) + [newPoint] && n == old(n) + 1
      ensures mean == old(mean) && variance == old(variance)
      ensures old(Valid()) ==> Valid()
    {
      points := points + [newPoint];
      n := n + 1;
    }

    /**
     * addPoints: merge a list of indices, then sort and drop repeats; the
     * count becomes the number of distinct indices.
     */
    method AddPoints(newPoints: seq<int>)
      modifies this
      ensures points == SortedUnique(old(points) + newPoints)
      ensures StrictlySorted(points)
      ensures forall y :: y in points <==> y in old(points) || y in newPoints
      ensures n == |points|
      ensures mean == old(mean) && variance == old(variance)
      ensures old(Valid()) ==> Valid()
    {
      var merged := points + newPoints;
      if |merged| > 0 {
        assert merged[0] in merged;
      }
      points := SortedUnique(merged);
      n := |points|;
    }

    /** calculate_force: the pull of the mean's first component on `point`, in (0, 1]. */
    function CalculateForce(point: real): (r: real)
      reads this
      requires |mean| > 0
      ensures 0.0 < r <= 1.0
      ensures r == 1.0 <==> point == mean[0]
    {
      Force(point, mean[0])
    }

    /**
     * adjust_variance_with_force: the variance grows by the total force of
     * the components of `data`, strictly and by at most |data| when there is
     * a component; nothing else changes.
     */
    method AdjustVarianceWithForce(data: seq<real>)
      requires |data| > 0 ==> |mean| > 0
      modifies this
      ensures mean == old(mean) && n == old(n) && points == old(points)
      ensures variance == old(variance) + TotalForce(data, mean)
      ensures |data| > 0 ==> old(variance) < variance <= old(variance) + |data| as real
      ensures |data| == 0 ==> variance == old(variance)
      ensures old(Valid()) ==> Valid()
    {
      var totalForce := 0.0;
      var i := 0;
      while i < |data|
        invariant 0 <= i <= |data|
        invariant totalForce == TotalForce(data[..i], mean)
      {
        assert data[..i + 1][..i] == data[..i];
        totalForce := totalForce + CalculateForce(data[i]);
        i := i + 1;
      }
      assert data[..|data|] == data;
      variance := variance + totalForce;
    }

    /** operator==: two clouds are equal when they hold the same indices in the same order. */
    function Equals(c: DataCloud): (r: bool)
      reads this, c
      ensures r <==> points == c.points
      ensures r && Valid() && c.Valid() ==> n == c.n
      ensures c == this ==> r
    {
      points == c.points
    }
  }
}
