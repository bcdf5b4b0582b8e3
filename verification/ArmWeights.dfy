/**
 What inverse weighting buys a group: over the randomization the weights of either arm add up, on
 average, to the number of units in the group.
 */
module ArmWeights {
  import opened Wrappers
  import opened Expectation
  import opened CrossFit
  import opened Evidence
  import opened Unbiased
  import opened GroupUnbiased

  /** The weights of the rows of one arm. */
  function ArmWeight(rows: seq<PseudoRow>, arm: bool): real
    requires Weighable(rows)
  {
    if rows == [] then 0.0 else
      var n := |rows| - 1;
      ArmWeight(rows[..n], arm) + if rows[n].treated == arm then IpwWeight(rows[n]) else 0.0
  }

  /** The two arms share the whole weight that the effective sample size is made of. */
  lemma {:induction false} ArmsShareWeight(rows: seq<PseudoRow>)
    requires Weighable(rows)
    ensures WeightSum(rows) == ArmWeight(rows, true) + ArmWeight(rows, false)
  {
    hide IpwWeight;
    if rows != [] { ArmsShareWeight(rows[..|rows| - 1]); }
  }

  /** What a unit of propensity p adds to the weight of one arm. */
  function UnitWeight(p: real, treated: bool, arm: bool): real
    requires 0.0 < p < 1.0
  {
    if treated != arm then 0.0 else if treated then 1.0 / p else 1.0 / (1.0 - p)
  }

  function UnitWeights(us: seq<Unit>, idx: seq<nat>, a: seq<bool>, arm: bool): real
    requires UsableAt(us, idx) && |a| == |us|
  {
    if idx == [] then 0.0 else
      var n := |idx| - 1;
      UnitWeights(us, idx[..n], a, arm) + UnitWeight(ClipPropensity(us[idx[n]].propensity), a[idx[n]], arm)
  }

  function WeightStatistic(us: seq<Unit>, idx: seq<nat>, arm: bool): Statistic
    requires UsableAt(us, idx)
  {
    (a: seq<bool>) => if |a| == |us| then UnitWeights(us, idx, a, arm) else 0.0
  }

  function OneWeight(us: seq<Unit>, i: nat, arm: bool): Statistic
    requires i < |us|
  {
    (a: seq<bool>) => if |a| == |us| then UnitWeight(ClipPropensity(us[i].propensity), a[i], arm) else 0.0
  }

  lemma {:induction false} ScoredWeights(s: Study, el: seq<Row>, a: seq<bool>, idx: seq<nat>, arm: bool)
    requires s.Valid() && |a| == |s.us| && UsableAt(s.us, idx)
    ensures Weighable(Scores(s, el, a, idx))
    ensures ArmWeight(Scores(s, el, a, idx), arm) == UnitWeights(s.us, idx, a, arm)
  {
    if idx == [] {
      NoScores(s, el, a);
    } else {
      var init, i := idx[..|idx| - 1], idx[|idx| - 1];
      assert idx == init + [i];
      ScoredWeights(s, el, a, init, arm);
      ScoresOneMore(s, el, a, init, i);
      var r := UnitScore(s, el, a, i);
      assert r.propensity == ClipPropensity(s.us[i].propensity) && r.treated == a[i];
      hide Scores, UnitScore, ClipPropensity, IpwWeight, UnitWeight;
      WeightOneMore(Scores(s, el, a, init), r, arm);
      SameWeight(r, arm);
    }
  }

  lemma SameWeight(r: PseudoRow, arm: bool)
    requires 0.0 < r.propensity < 1.0
    ensures (if r.treated == arm then IpwWeight(r) else 0.0) == UnitWeight(r.propensity, r.treated, arm)
  {
  }

  lemma WeightOneMore(rows: seq<PseudoRow>, r: PseudoRow, arm: bool)
    requires Weighable(rows) && 0.0 < r.propensity < 1.0
    ensures Weighable(rows + [r])
    ensures ArmWeight(rows + [r], arm) == ArmWeight(rows, arm) + if r.treated == arm then IpwWeight(r) else 0.0
  {
    assert (rows + [r])[..|rows|] == rows;
  }

  lemma ArmsAverage(p: real, arm: bool)
    requires 0.0 < p < 1.0
    ensures Mix(p, UnitWeight(p, true, arm), UnitWeight(p, false, arm)) == 1.0
  {
    assert p * (1.0 / p) == 1.0 && (1.0 - p) * (1.0 / (1.0 - p)) == 1.0;
  }

  lemma OneWeightUnbiased(us: seq<Unit>, i: nat, arm: bool)
    requires i < |us| && Positive(us[i])
    ensures Expect(Propensities(us), OneWeight(us, i, arm)) == 1.0
  {
    hide Mix, UnitWeight;
    var ps, f := Propensities(us), OneWeight(us, i, arm);
    forall a: seq<bool> | |a| == |ps| ensures Mix(ps[i], f(a[i := true]), f(a[i := false])) == 1.0 {
      ArmsAverage(us[i].propensity, arm);
    }
    ExpectCoordinate(ps, f, i, 1.0);
  }

  lemma {:induction false} WeightsUnbiased(us: seq<Unit>, idx: seq<nat>, arm: bool)
    requires UsableAt(us, idx) && forall k | 0 <= k < |idx| :: Positive(us[idx[k]])
    ensures Expect(Propensities(us), WeightStatistic(us, idx, arm)) == |idx| as real
  {
    hide UnitWeight, Combination, Expect, ClipPropensity;
    var ps, f := Propensities(us), WeightStatistic(us, idx, arm);
    if idx == [] {
      ExpectConstant(ps, f, 0.0);
    } else {
      var n := |idx| - 1;
      var g, h := WeightStatistic(us, idx[..n], arm), OneWeight(us, idx[n], arm);
      WeightsUnbiased(us, idx[..n], arm);
      OneWeightUnbiased(us, idx[n], arm);
      forall a: seq<bool> | |a| == |ps| ensures f(a) == Combined(1.0, g, 1.0, h)(a) {
        CombinationOfOnes(g(a), h(a));
      }
      ExpectSame(ps, f, Combined(1.0, g, 1.0, h));
      ExpectLinear(ps, 1.0, g, 1.0, h);
      CombinationOfOnes(Expect(ps, g), Expect(ps, h));
    }
  }

  /** The weight of one arm in a group of the log of each assignment. */
  function GroupWeight(learner: Learner, wanted: int, hash: string -> nat, fitRows: Option<seq<Row>>, us: seq<Unit>,
        level: nat, key: string, arm: bool): Statistic {
    (a: seq<bool>) =>
      if |a| != |us| then 0.0 else
        var rows := Group(Logged(learner, wanted, hash, fitRows, us, a), KeyOf(level), key);
        if Weighable(rows) then ArmWeight(rows, arm) else 0.0
  }

  /** For each level, key and arm the expected weight of the arm is the number of units of the group. */
  lemma ArmWeightsUnbiased(learner: Learner, wanted: int, hash: string -> nat, fitRows: Option<seq<Row>>,
        us: seq<Unit>, level: nat, key: string, arm: bool)
    requires forall k | k in Keyed(us, level, key, UsableIndices(us)) :: Positive(us[k])
    ensures Expect(Propensities(us), GroupWeight(learner, wanted, hash, fitRows, us, level, key, arm))
         == |Keyed(us, level, key, UsableIndices(us))| as real
  {
    hide Expect, UnitWeights, PseudoRows, MakeFolds, Order, Keyed, Log, Eligible, UsableIndices, Scores, Group;
    hide KeyOf, ArmWeight;
    var none := seq(|us|, k => false);
    var s := Study(learner, MakeFolds(wanted, hash, Eligible(Log(us, none))), fitRows, us);
    VisitedGroup(s, level, key);
    var visited := Keyed(us, level, key, Order(s));
    WeightsUnbiased(us, visited, arm);
    var f, g := GroupWeight(learner, wanted, hash, fitRows, us, level, key, arm), WeightStatistic(us, visited, arm);
    forall a: seq<bool> | |a| == |us| ensures f(a) == g(a) {
      FoldsFixed(wanted, hash, us, a, none);
      LoggedGroupRows(s, level, key, a);
      ScoredWeights(s, Pick(us, a, UsableIndices(us)), a, visited, arm);
    }
    ExpectSame(Propensities(us), f, g);
  }
}
