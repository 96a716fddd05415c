/**
 * The cloud-based detector of figures/firmware_v5/telelogger/k_fix.h
 * (class TEDACloud): a list of data clouds, the running observation
 * counter `indexPoint` and the per-cloud normalised typicalities `alfa`.
 * The unused members classIndex, argMax and relevanceList are not kept.
 */
module TedaClouds {

  import opened CloudMath
  import opened CloudFacts
  import opened DataClouds

  /** The value of every cloud of a list, in order. */
  ghost function StatesOf(cs: seq<DataCloud>): (r: seq<CloudState>)
    reads cs
    ensures |r| == |cs|
    ensures forall i :: 0 <= i < |cs| ==> r[i] == cs[i].State()
  {
    seq(|cs|, i reads cs requires 0 <= i < |cs| => cs[i].State())
  }

  /** No cloud object appears twice in the list. */
  ghost predicate Distinct(cs: seq<DataCloud>)
  {
    forall i, j :: 0 <= i < j < |cs| ==> cs[i] != cs[j]
  }

  /**
   * Lines 191-213 of runOnline for one cloud: the candidate mean and
   * variance and the squared distance of the candidate mean to the
   * observation come from the loops of the source; the eccentricity, the
   * normalised typicality and the membership test are VerdictFrom.  The
   * cloud is only read.
   */
  method Evaluate(c: DataCloud, data: seq<real>, m: int, indexPoint: int) returns (v: Verdict)
    requires Testable(c.State(), data) && indexPoint != 2
    ensures v == VerdictOf(c.State(), data, m, indexPoint)
  {
    var testN := c.n + 1;
    var testMean := c.GetUpdatedMean(data);
    var testVar := c.GetUpdatedVarianceK3(data, testMean);
    assert testVar == TestVariance(c.State(), data) > 0.0;
    var sumDiffSquared := SumDiffSquared(testMean, data);
    v := VerdictFrom(testN, testMean, testVar, sumDiffSquared, m, indexPoint);
  }

  /** The loop of lines 198-202: the squared distance between a candidate mean and the observation. */
  method SumDiffSquared(testMean: seq<real>, data: seq<real>) returns (sum: real)
    requires |testMean| <= |data|
    ensures sum == SqDist(testMean, data)
  {
    sum := 0.0;
    var j := 0;
    while j < |testMean|
      invariant 0 <= j <= |testMean|
      invariant sum == SqDist(testMean[..j], data)
    {
      var diff := testMean[j] - data[j];
      assert testMean[..j + 1][..j] == testMean[..j];
      sum := sum + diff * diff;
      j := j + 1;
    }
    assert testMean[..|testMean|] == testMean;
  }

  /** Taking one cloud out of a list keeps the others distinct and bookkept. */
  lemma RemoveKeepsValid(cs: seq<DataCloud>, i: int, rest: seq<DataCloud>)
    requires 0 <= i < |cs| && Distinct(cs)
    requires forall j :: 0 <= j < |cs| ==> cs[j].Valid()
    requires rest == cs[..i] + cs[i + 1..]
    ensures Distinct(rest)
    ensures forall j :: 0 <= j < |rest| ==> rest[j].Valid()
  {
    assert forall j :: 0 <= j < |rest| ==> rest[j] == cs[if j < i then j else j + 1];
  }

  class TEDACloud {
    var indexPoint: int
    var clouds: seq<DataCloud>
    var alfa: seq<real>

    /** The counter is not negative, the clouds are distinct objects and each keeps its count. */
    ghost predicate Valid()
      reads this, clouds
    {
      && indexPoint >= 0
      && Distinct(clouds)
      && (forall i :: 0 <= i < |clouds| ==> clouds[i].Valid())
    }

    /** TEDACloud(): no clouds yet, no observation seen, two typicality slots. */
    constructor ()
      ensures Valid()
      ensures indexPoint == 0 && clouds == [] && alfa == [0.0, 0.0]
    {
      indexPoint := 0;
      clouds := [];
      alfa := [0.0, 0.0];
    }

    /** createCloud: append a new one-member cloud for observation `k`. */
    method CreateCloud(x: seq<real>, k: int)
      requires Valid()
      modifies this
      ensures Valid()
      ensures |clouds| == |old(clouds)| + 1 && clouds[..|old(clouds)|] == old(clouds)
      ensures fresh(clouds[|clouds| - 1])
      ensures StatesOf(clouds) == old(StatesOf(clouds)) + [NewCloud(x, k)]
      ensures indexPoint == old(indexPoint) && alfa == old(alfa)
    {
      var c := new DataCloud(x, k);
      clouds := clouds + [c];
      assert clouds[..|old(clouds)|] == old(clouds);
    }

    /**
     * deleteCloud: remove the first cloud holding exactly the indices of
     * `c`; if there is none, nothing changes.
     */
    method DeleteCloud(c: DataCloud)
      requires Valid()
      modifies this
      ensures Valid()
      ensures var k := IndexOfPoints(old(StatesOf(clouds)), c.points);
        clouds == if k < |old(clouds)| then old(clouds)[..k] + old(clouds)[k + 1..] else old(clouds)
      ensures indexPoint == old(indexPoint) && alfa == old(alfa)
    {
      ghost var states := StatesOf(clouds);
      var i := 0;
      while i < |clouds|
        invariant 0 <= i <= |clouds| && clouds == old(clouds)
        invariant forall j :: 0 <= j < i ==> states[j].points != c.points
      {
        if clouds[i].Equals(c) {
          assert IndexOfPoints(states, c.points) == i;
          RemoveKeepsValid(clouds, i, clouds[..i] + clouds[i + 1..]);
          clouds := clouds[..i] + clouds[i + 1..];
          return;
        }
        i := i + 1;
      }
    }

    /** getCloud: the cloud stored at `index`, as a reference into the list. */
    function GetCloud(index: int): (c: DataCloud)
      reads this, clouds
      requires 0 <= index < |clouds|
      ensures c == clouds[index] && c in clouds
      ensures Valid() ==> c.Valid()
    {
      clouds[index]
    }

    /**
     * runOnline: number the observation, then either create one of the
     * first three clouds, or test the first numCloud clouds and commit,
     * as SteadyStep describes, returning its choice.
     */
    method RunOnline(data: seq<real>, m: int, numCloud: int, isOutlier: bool) returns (r: int)
      requires Valid()
      requires indexPoint >= 3 ==> SteadyReady(StatesOf(clouds), data, numCloud)
      modifies this, clouds
      ensures Valid()
      ensures indexPoint == old(indexPoint) + 1
      // bootstrap: calls 1, 2 and 3 each create a cloud
      ensures old(indexPoint) < 3 ==>
        && r == old(indexPoint)
        && |clouds| == |old(clouds)| + 1 && clouds[..|old(clouds)|] == old(clouds)
        && fresh(clouds[|clouds| - 1])
        && StatesOf(clouds) == old(StatesOf(clouds)) + [NewCloud(data, indexPoint)]
        && alfa == old(alfa)
      // steady state: the clouds, alfa and the result are those of SteadyStep
      ensures old(indexPoint) >= 3 ==>
        && clouds == old(clouds)
        && var step := SteadyStep(old(StatesOf(clouds)), data, m, numCloud, isOutlier, indexPoint);
        && StatesOf(clouds) == step.clouds
        && alfa == step.alfa
        && r == step.chosen
    {
      indexPoint := indexPoint + 1;
      if indexPoint == 1 {
        CreateCloud(data, indexPoint);
        return 0;
      } else if indexPoint == 2 {
        CreateCloud(data, indexPoint);
        return 1;
      } else if indexPoint == 3 {
        CreateCloud(data, indexPoint);
        return 2;
      }
      r := SteadyState(data, m, numCloud, isOutlier);
    }

    /** Lines 182-305 of runOnline, for an observation after the third. */
    method SteadyState(data: seq<real>, m: int, numCloud: int, isOutlier: bool) returns (r: int)
      requires Valid() && indexPoint >= 4
      requires SteadyReady(StatesOf(clouds), data, numCloud)
      modifies this, clouds
      ensures Valid()
      ensures clouds == old(clouds) && indexPoint == old(indexPoint)
      ensures var step := SteadyStep(old(StatesOf(clouds)), data, m, numCloud, isOutlier, indexPoint);
        && StatesOf(clouds) == step.clouds
        && alfa == step.alfa
        && r == step.chosen
    {
      ghost var states := StatesOf(clouds);
      var typicalities;
      typicalities, r := UpdateClouds(clouds, data, m, numCloud, isOutlier, indexPoint);
      alfa := typicalities;
      SteadyKeepsBookkeeping(states, data, m, numCloud, isOutlier, indexPoint);
      forall j | 0 <= j < |clouds|
        ensures clouds[j].Valid()
      {
        assert Bookkept(states[j]);
      }
    }
  }

  /**
   * Lines 182-305 of runOnline on the list of clouds: the loop, then the
   * forced-outlier reinitialisation; the final branches of lines 269-303
   * need a choice of -1, which the loop never leaves behind once a cloud
   * has been tested.
   */
  method UpdateClouds(cs: seq<DataCloud>, data: seq<real>, m: int, numCloud: int, isOutlier: bool, indexPoint: int)
    returns (typicalities: seq<real>, chosenCloud: int)
    requires Distinct(cs) && indexPoint != 2
    requires SteadyReady(StatesOf(cs), data, numCloud)
    modifies cs
    ensures var step := SteadyStep(old(StatesOf(cs)), data, m, numCloud, isOutlier, indexPoint);
      && StatesOf(cs) == step.clouds
      && typicalities == step.alfa
      && chosenCloud == step.chosen
  {
    ghost var states := StatesOf(cs);
    ghost var vs := Verdicts(states, data, m, indexPoint, numCloud);
    var nothingCloud;
    typicalities, chosenCloud, nothingCloud := ScanClouds(cs, data, m, numCloud, indexPoint, states, vs);
    ScanAllChoice(vs);
    if nothingCloud && isOutlier {
      var maxIndex := FirstArgMax(typicalities);
      ForceOutlier(cs, maxIndex, data, indexPoint);
    } else if chosenCloud == -1 {
      // lines 269-303: only reachable when no cloud is tested at all
      assert false;
    }
    ghost var after := StatesOf(cs);
    if nothingCloud && isOutlier {
      OutlierStep(states, after, data, m, numCloud, indexPoint, vs, typicalities, chosenCloud);
    } else {
      CommittedStep(states, after, data, m, numCloud, isOutlier, indexPoint, vs, typicalities, chosenCloud);
    }
  }

  /**
   * The loop of lines 182-230 over the clouds `cs` (the first numCloud of
   * them): test each against the observation, commit each passing one,
   * collect the normalised typicalities that runOnline stores in `alfa`,
   * and keep the running choice.
   */
  method ScanClouds(cs: seq<DataCloud>, data: seq<real>, m: int, numCloud: int, indexPoint: int,
                    ghost states: seq<CloudState>, ghost vs: seq<Verdict>)
    returns (typicalities: seq<real>, chosenCloud: int, nothingCloud: bool)
    requires Distinct(cs) && indexPoint != 2
    requires 1 <= numCloud <= |cs| && |states| == |cs| && |vs| == numCloud
    requires forall j :: 0 <= j < |cs| ==> cs[j].State() == states[j]
    requires forall j :: 0 <= j < numCloud ==> Testable(states[j], data) && vs[j] == VerdictOf(states[j], data, m, indexPoint)
    modifies cs
    ensures forall j :: 0 <= j < |cs| ==>
      cs[j].State() == if j < numCloud && vs[j].inCloud then Commit(states[j], vs[j], indexPoint) else states[j]
    ensures |typicalities| == numCloud && forall j :: 0 <= j < numCloud ==> typicalities[j] == vs[j].normTypicality
    ensures Scan(ScanAll(vs).maxTypicality, chosenCloud, nothingCloud) == ScanAll(vs)
  {
    typicalities := seq(numCloud, _ => 0.0);
    var maxTypicality: ExtReal := NegInfinity;
    chosenCloud := -1;
    nothingCloud := true;
    var i := 0;
    while i < numCloud
      invariant 0 <= i <= numCloud
      invariant |typicalities| == numCloud
      invariant forall j :: 0 <= j < i ==> typicalities[j] == vs[j].normTypicality
      invariant Scan(maxTypicality, chosenCloud, nothingCloud) == ScanAll(vs[..i])
      invariant forall j :: 0 <= j < |cs| ==>
        cs[j].State() == if j < i && vs[j].inCloud then Commit(states[j], vs[j], indexPoint) else states[j]
    {
      assert cs[i].State() == states[i];
      var normTypicality;
      maxTypicality, chosenCloud, nothingCloud, normTypicality :=
        TestCloud(cs, i, data, m, indexPoint, maxTypicality, chosenCloud, nothingCloud);
      typicalities := typicalities[i := normTypicality];
      ScanAllExtend(vs, i);
      i := i + 1;
    }
    assert vs[..numCloud] == vs;
  }

  /**
   * When some cloud passes, or the observation is not a forced outlier,
   * the clouds the loop leaves behind, cloud by cloud, and its choice are
   * the step SteadyStep describes.
   */
  lemma CommittedStep(states: seq<CloudState>, after: seq<CloudState>, x: seq<real>, m: int, numCloud: int,
                      isOutlier: bool, indexPoint: int, vs: seq<Verdict>, alfa: seq<real>, chosen: int)
    requires SteadyReady(states, x, numCloud) && indexPoint != 2 && vs == Verdicts(states, x, m, indexPoint, numCloud)
    requires |alfa| == numCloud && forall j :: 0 <= j < numCloud ==> alfa[j] == vs[j].normTypicality
    requires chosen == ScanAll(vs).chosen && !(ScanAll(vs).nothing && isOutlier)
    requires |after| == |states|
    requires forall j :: 0 <= j < |states| ==>
      after[j] == if j < numCloud && vs[j].inCloud then Commit(states[j], vs[j], indexPoint) else states[j]
    ensures SteadyStep(states, x, m, numCloud, isOutlier, indexPoint) == Step(after, alfa, chosen)
  {
    assert alfa == Typicalities(vs);
    assert after == CommitPassing(states, vs, indexPoint);
  }

  /**
   * When no cloud passes and the observation is a forced outlier, the
   * clouds with the first maximiser of alfa reinitialised, and the loop's
   * choice, are the step SteadyStep describes.
   */
  lemma OutlierStep(states: seq<CloudState>, after: seq<CloudState>, x: seq<real>, m: int, numCloud: int,
                    indexPoint: int, vs: seq<Verdict>, alfa: seq<real>, chosen: int)
    requires SteadyReady(states, x, numCloud) && indexPoint != 2 && vs == Verdicts(states, x, m, indexPoint, numCloud)
    requires |alfa| == numCloud && forall j :: 0 <= j < numCloud ==> alfa[j] == vs[j].normTypicality
    requires chosen == ScanAll(vs).chosen && ScanAll(vs).nothing
    requires |after| == |states|
    requires forall j :: 0 <= j < |states| ==>
      after[j] == if j == FirstArgMax(alfa) then Reinitialise(states[j], x, indexPoint) else states[j]
    ensures SteadyStep(states, x, m, numCloud, true, indexPoint) == Step(after, alfa, chosen)
  {
    ScanAllChoice(vs);
    assert alfa == Typicalities(vs);
    var committed := CommitPassing(states, vs, indexPoint);
    assert committed == states;
    var t := FirstArgMax(alfa);
    var reinit := committed[t := Reinitialise(committed[t], x, indexPoint)];
    assert |reinit| == |after|;
    forall j | 0 <= j < |after| ensures reinit[j] == after[j] {
    }
    assert reinit == after;
  }

  /**
   * Lines 260-268 for the cloud `cs[t]` maximising alfa: its mean becomes
   * the observation, its variance grows by the observation's total force,
   * and the observation's index is recorded; no other cloud changes.
   */
  method ForceOutlier(cs: seq<DataCloud>, t: int, data: seq<real>, indexPoint: int)
    requires Distinct(cs) && 0 <= t < |cs|
    modifies cs[t]
    ensures cs[t].State() == Reinitialise(old(cs[t].State()), data, indexPoint)
    ensures forall j :: 0 <= j < |cs| && j != t ==> cs[j].State() == old(cs[j].State())
  {
    var c := cs[t];
    c.mean := data;
    c.AdjustVarianceWithForce(data);
    c.AddPoint(indexPoint);
  }

  /**
   * One iteration of the loop (lines 188-229): test cloud `cs[i]`, commit
   * it when it passes, and advance the running maximum, choice and
   * nothing-passed flag; no other cloud of the list changes.
   */
  method TestCloud(cs: seq<DataCloud>, i: int, data: seq<real>, m: int, indexPoint: int,
                   maxTypicality: ExtReal, chosenCloud: int, nothingCloud: bool)
    returns (newMax: ExtReal, newChosen: int, newNothing: bool, normTypicality: real)
    requires Distinct(cs) && 0 <= i < |cs|
    requires Testable(cs[i].State(), data) && indexPoint != 2
    modifies cs[i]
    ensures var v := VerdictOf(old(cs[i].State()), data, m, indexPoint);
      && cs[i].State() == (if v.inCloud then Commit(old(cs[i].State()), v, indexPoint) else old(cs[i].State()))
      && Scan(newMax, newChosen, newNothing) == ScanStep(Scan(maxTypicality, chosenCloud, nothingCloud), v, i)
      && normTypicality == v.normTypicality
    ensures forall j :: 0 <= j < |cs| && j != i ==> cs[j].State() == old(cs[j].State())
  {
    var c := cs[i];
    newMax, newChosen, newNothing := maxTypicality, chosenCloud, nothingCloud;
    var v := Evaluate(c, data, m, indexPoint);
    if v.inCloud {
      c.UpdateStats(v.testMean, v.testVar);
      c.AddPoint(indexPoint);
      newNothing := false;
      newChosen := i;
    } else if AtLeast(v.normTypicality, maxTypicality) && nothingCloud {
      newMax := Finite(v.normTypicality);
      newChosen := i;
    }
    normTypicality := v.normTypicality;
  }

  /**
   * Four calls on a fresh detector with `m = 3`: the observations `[0]`,
   * `[100]` and `[200]` each create a cloud, and `[1]` then joins all three
   * clouds, so the fourth call returns 2, the highest passing index.
   */
  method SeparatedObservations() returns (r1: int, r2: int, r3: int, r4: int, points: seq<seq<int>>)
    ensures r1 == 0 && r2 == 1 && r3 == 2 && r4 == 2
    ensures points == [[1, 4], [2, 4], [3, 4]]
  {
    var t := new TEDACloud();
    r1 := t.RunOnline([0.0], 3, 3, false);
    r2 := t.RunOnline([100.0], 3, 3, false);
    r3 := t.RunOnline([200.0], 3, 3, false);
    assert StatesOf(t.clouds) == [NewCloud([0.0], 1), NewCloud([100.0], 2), NewCloud([200.0], 3)];
    SeparatedCloudsAllAccept();
    r4 := t.RunOnline([1.0], 3, 3, false);
    points := [t.clouds[0].points, t.clouds[1].points, t.clouds[2].points];
  }
}
