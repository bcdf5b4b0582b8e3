/**
 The error rate the step-down correction is for: over any finite probability space of data sets,
 with any dependence between the p-values, some true hypothesis is rejected with probability at
 most alpha.
 */
module FamilyWise {
  import opened Holm

  /** One possible data set: how likely it is, and the p-value it gives each hypothesis. */
  datatype Outcome = Outcome(weight: real, p: seq<real>)

  /** Weights are not negative, and every data set has a p-value for each listed hypothesis. */
  ghost predicate Space(os: seq<Outcome>, truth: seq<nat>) {
    && (forall k :: 0 <= k < |os| ==> os[k].weight >= 0.0)
    && (forall k, l :: 0 <= k < |os| && 0 <= l < |truth| ==> truth[l] < |os[k].p|)
  }

  /** The probability that hypothesis i gets a p-value of at most t. */
  function SmallProbability(os: seq<Outcome>, i: nat, t: real): real
    requires forall k :: 0 <= k < |os| ==> i < |os[k].p|
  {
    if os == [] then 0.0 else
      SmallProbability(os[1..], i, t) + if os[0].p[i] <= t then os[0].weight else 0.0
  }

  /** A p-value of a true hypothesis is at most t with probability at most t. */
  ghost predicate ValidPValues(os: seq<Outcome>, truth: seq<nat>)
    requires Space(os, truth)
  {
    forall l, t: real :: 0 <= l < |truth| && t >= 0.0 ==> SmallProbability(os, truth[l], t) <= t
  }

  ghost predicate FalseRejection(o: Outcome, truth: seq<nat>) {
    exists l :: 0 <= l < |truth| && truth[l] < |o.p| && Rejects(o.p, truth[l])
  }

  /** The probability that the procedure rejects some true hypothesis. */
  ghost function ErrorProbability(os: seq<Outcome>, truth: seq<nat>): real {
    if os == [] then 0.0 else
      ErrorProbability(os[1..], truth) + if FalseRejection(os[0], truth) then os[0].weight else 0.0
  }

  /** The weight of one data set, once for every listed hypothesis with a small p-value in it. */
  function SmallWeight(o: Outcome, truth: seq<nat>, t: real): real
    requires forall l :: 0 <= l < |truth| ==> truth[l] < |o.p|
  {
    if truth == [] then 0.0 else
      var n := |truth| - 1;
      SmallWeight(o, truth[..n], t) + if o.p[truth[n]] <= t then o.weight else 0.0
  }

  function SmallTotal(os: seq<Outcome>, truth: seq<nat>, t: real): real
    requires Space(os, truth)
  {
    if os == [] then 0.0 else SmallTotal(os[1..], truth, t) + SmallWeight(os[0], truth, t)
  }

  lemma {:induction false} SmallWeightCovers(o: Outcome, truth: seq<nat>, t: real)
    requires o.weight >= 0.0 && forall l :: 0 <= l < |truth| ==> truth[l] < |o.p|
    ensures SmallWeight(o, truth, t) >= 0.0
    ensures (exists l :: 0 <= l < |truth| && o.p[truth[l]] <= t) ==> SmallWeight(o, truth, t) >= o.weight
  {
    if truth != [] {
      SmallWeightCovers(o, truth[..|truth| - 1], t);
    }
  }

  /** Summing over data sets first or over hypotheses first makes no difference. */
  lemma {:induction false} SmallTotalByHypothesis(os: seq<Outcome>, truth: seq<nat>, t: real)
    requires Space(os, truth) && truth != []
    ensures var n := |truth| - 1;
            && Space(os, truth[..n])
            && SmallTotal(os, truth, t) == SmallTotal(os, truth[..n], t) + SmallProbability(os, truth[n], t)
  {
    if os != [] {
      SmallTotalByHypothesis(os[1..], truth, t);
    }
  }

  lemma {:induction false} UnionBound(os: seq<Outcome>, truth: seq<nat>, t: real)
    requires Space(os, truth) && t >= 0.0
    requires forall l :: 0 <= l < |truth| ==> SmallProbability(os, truth[l], t) <= t
    ensures SmallTotal(os, truth, t) <= |truth| as real * t
  {
    if truth == [] {
      NothingSmall(os, t);
    } else {
      var n := |truth| - 1;
      SmallTotalByHypothesis(os, truth, t);
      UnionBound(os, truth[..n], t);
      assert |truth| as real * t == n as real * t + t;
    }
  }

  lemma {:induction false} NothingSmall(os: seq<Outcome>, t: real)
    requires Space(os, [])
    ensures SmallTotal(os, [], t) == 0.0
  {
    if os != [] { NothingSmall(os[1..], t); }
  }

  predicate Different(truth: seq<nat>) {
    forall k, l :: 0 <= k < l < |truth| ==> truth[k] != truth[l]
  }

  function Family(truth: seq<nat>): (r: set<nat>)
    ensures forall i :: i in r <==> i in truth
  {
    if truth == [] then {} else
      var n := |truth| - 1;
      assert truth == truth[..n] + [truth[n]];
      Family(truth[..n]) + {truth[n]}
  }

  lemma {:induction false} FamilySize(truth: seq<nat>)
    requires Different(truth)
    ensures |Family(truth)| == |truth|
  {
    if truth != [] {
      FamilySize(truth[..|truth| - 1]);
    }
  }

  function Level(n: nat): real
    requires n > 0
  {
    ALPHA / n as real
  }

  lemma SmallInFamily(p: seq<real>, family: set<nat>, i: nat) returns (j: nat)
    requires (forall k | k in family :: k < |p|) && i in family && Rejects(p, i)
    ensures j in family && p[j] <= Level(|family|)
  {
    RejectionNeedsSmallValue(p, family, i);
    hide Rejects;
    j :| j in family && p[j] <= ALPHA / |family| as real;
  }

  /** In each data set a false rejection takes a small p-value of a true hypothesis. */
  lemma FalseRejectionIsSmall(o: Outcome, truth: seq<nat>)
    requires truth != [] && Different(truth)
    requires forall l :: 0 <= l < |truth| ==> truth[l] < |o.p|
    requires FalseRejection(o, truth)
    ensures exists l :: 0 <= l < |truth| && o.p[truth[l]] <= Level(|truth|)
  {
    hide Rejects, Level, Family, Different;
    FamilySize(truth);
    var l :| 0 <= l < |truth| && truth[l] < |o.p| && Rejects(o.p, truth[l]);
    var i := SmallInFamily(o.p, Family(truth), truth[l]);
    assert i in truth;
    var k :| 0 <= k < |truth| && truth[k] == i;
  }

  lemma {:induction false} ErrorsAreCovered(os: seq<Outcome>, truth: seq<nat>)
    requires Space(os, truth) && truth != [] && Different(truth)
    ensures ErrorProbability(os, truth) <= SmallTotal(os, truth, Level(|truth|))
  {
    hide FalseRejection, SmallWeight, Level, Different;
    if os != [] {
      ErrorsAreCovered(os[1..], truth);
      SmallWeightCovers(os[0], truth, Level(|truth|));
      if FalseRejection(os[0], truth) {
        FalseRejectionIsSmall(os[0], truth);
      }
    }
  }

  /**
   Family-wise error control: whatever the other hypotheses do and however the p-values depend on
   one another, some true hypothesis is rejected with probability at most 0.05.
   */
  lemma FamilyWiseErrorControlled(os: seq<Outcome>, truth: seq<nat>)
    requires Space(os, truth) && Different(truth) && ValidPValues(os, truth)
    ensures ErrorProbability(os, truth) <= 0.05
  {
    hide ErrorProbability, SmallTotal, Space, Different, Level;
    if truth == [] {
      NoErrors(os);
    } else {
      var t := Level(|truth|);
      Shares(|truth|);
      ErrorsAreCovered(os, truth);
      UnionBound(os, truth, t);
    }
  }

  lemma Shares(n: nat)
    requires n > 0
    ensures n as real * Level(n) == ALPHA && Level(n) >= 0.0
  {
  }

  lemma {:induction false} NoErrors(os: seq<Outcome>)
    ensures ErrorProbability(os, []) == 0.0
  {
    if os != [] { NoErrors(os[1..]); }
  }
}
