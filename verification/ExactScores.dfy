/**
 The other half of double robustness: what each cross-fitted score is off by, row by row and for any
 assignment, and that exact predictions make it exact without any averaging.
 */
module ExactScores {
  import opened Wrappers
  import opened Expectation
  import opened CrossFit
  import opened Evidence
  import opened Unbiased
  import opened GroupUnbiased

  /** The study a log comes from, its folds made from that log. */
  function StudyOf(learner: Learner, wanted: int, hash: string -> nat, fitRows: Option<seq<Row>>, us: seq<Unit>,
                   a: seq<bool>): (s: Study)
    requires |a| == |us|
    ensures s.Valid() && s.us == us
  {
    Study(learner, MakeFolds(wanted, hash, Eligible(Log(us, a))), fitRows, us)
  }

  lemma {:induction false} ScoresAt(s: Study, el: seq<Row>, a: seq<bool>, idx: seq<nat>, k: nat)
    requires s.Valid() && |a| == |s.us| && UsableAt(s.us, idx) && k < |idx|
    ensures |Scores(s, el, a, idx)| == |idx|
    ensures Scores(s, el, a, idx)[k] == UnitScore(s, el, a, idx[k])
  {
    PickUsable(s.us, a, idx);
    ScoredByOwnTraining(s.learner, s.folds, el, s.fitRows, Pick(s.us, a, idx), k);
  }

  /** The k-th row of a cross-fitted log scores the k-th unit in visiting order. */
  lemma LoggedRow(s: Study, a: seq<bool>, k: nat)
    requires s.Valid() && |a| == |s.us| && k < |Order(s)|
    ensures var ps := PseudoRows(s.learner, s.folds, s.fitRows, Log(s.us, a));
            && |ps| == |Order(s)|
            && Training(s, a, Order(s)[k]) == TrainingFor(s.folds, Pick(s.us, a, UsableIndices(s.us)), s.fitRows,
                                                          s.us[Order(s)[k]].episodeId)
            && ps[k] == Score(s.learner, Training(s, a, Order(s)[k]), Observe(s.us[Order(s)[k]], a[Order(s)[k]]))
  {
    hide Select, Visited, Score;
    var el := UsableIndices(s.us);
    EligibleFixed(s.us, a);
    VisitedFixed(s.folds, s.us, a, el, s.folds.count);
    PickUsable(s.us, a, Order(s));
    ScoredByOwnTraining(s.learner, s.folds, Pick(s.us, a, el), s.fitRows, Pick(s.us, a, Order(s)), k);
  }

  /** What predictions m1 and m0 leave unexplained at propensity e. */
  function Residual(v1: real, v0: real, m1: real, m0: real, e: real): real {
    Mix(1.0 - e, v1 - m1, v0 - m0)
  }

  /** Off by `r`, over e in the treated arm and over -(1 - e) in the other. */
  predicate OffBy(score: real, truth: real, treated: bool, e: real, r: real) {
    if treated then Times(e, score - truth) == r else Times(1.0 - e, truth - score) == r
  }

  lemma ContrastOff(m1: real, m0: real, v1: real, v0: real, treated: bool, e: real)
    requires 0.0 < e < 1.0
    ensures OffBy(Contrast(m1, m0, treated, if treated then v1 else v0, e), v1 - v0, treated, e,
                  Residual(v1, v0, m1, m0, e))
  {
    var x, z := (v1 - m1) / e, (v0 - m0) / (1.0 - e);
    assert e * x == v1 - m1;
    assert (1.0 - e) * z == v0 - m0;
    if treated {
      assert e * (m1 - m0 + x - (v1 - v0)) == e * x - e * ((v1 - m1) - (v0 - m0));
    } else {
      assert (1.0 - e) * ((v1 - v0) - (m1 - m0 - z)) == (1.0 - e) * ((v1 - m1) - (v0 - m0)) + (1.0 - e) * z;
    }
  }

  lemma ArmMeanOff(m1: real, v1: real, v0: real, treated: bool, e: real)
    requires 0.0 < e < 1.0
    ensures OffBy(ArmMean(m1, treated, if treated then v1 else v0, e), v1, treated, e, Times(1.0 - e, v1 - m1))
  {
    var x := (v1 - m1) / e;
    assert e * x == v1 - m1;
    if treated {
      assert e * (m1 + x - v1) == e * x - e * (v1 - m1);
    }
  }

  /**
   Row k of the log belongs to one unit, reports its arm and outcome, and each of its scores is off by
   exactly what the predictions for the two arms of that unit leave unexplained. No assumption on
   propensities, predictions or folds.
   */
  lemma ScoreError(s: Study, a: seq<bool>, k: nat)
    requires s.Valid() && |a| == |s.us| && k < |Order(s)|
    ensures var ps, i := PseudoRows(s.learner, s.folds, s.fitRows, Log(s.us, a)), Order(s)[k];
            && |ps| == |Order(s)|
            && var p, u, e := ps[k], s.us[i], ClipPropensity(s.us[i].propensity);
               var m := (o: Outcome, arm: bool) => s.learner(Training(s, a, i), o, arm, u.features);
               && p.opportunityId == u.opportunityId && p.context == u.features.context
               && p.treated == a[i] && p.propensity == e
               && p.y == (if a[i] then u.y1 else u.y0) && p.harm == (if a[i] then u.h1 else u.h0)
               && OffBy(p.phiY, u.y1 - u.y0, a[i], e, Residual(u.y1, u.y0, m(Benefit, true), m(Benefit, false), e))
               && OffBy(p.phiH, u.h1 - u.h0, a[i], e, Residual(u.h1, u.h0, m(Harm, true), m(Harm, false), e))
               && OffBy(p.psiH1, u.h1, a[i], e, Times(1.0 - e, u.h1 - m(Harm, true)))
  {
    hide Contrast, ArmMean, OffBy, Residual, Times, ClipPropensity, Training, Log, Order, PseudoRows;
    LoggedRow(s, a, k);
    var i := Order(s)[k];
    UnitError(s, a, i);
  }

  lemma UnitError(s: Study, a: seq<bool>, i: nat)
    requires s.Valid() && |a| == |s.us| && i < |s.us| && s.us[i].Usable()
    ensures var p, u, e := Score(s.learner, Training(s, a, i), Observe(s.us[i], a[i])), s.us[i],
                           ClipPropensity(s.us[i].propensity);
            var m := (o: Outcome, arm: bool) => s.learner(Training(s, a, i), o, arm, u.features);
            && p.opportunityId == u.opportunityId && p.context == u.features.context
            && p.treated == a[i] && p.propensity == e
            && p.y == (if a[i] then u.y1 else u.y0) && p.harm == (if a[i] then u.h1 else u.h0)
            && OffBy(p.phiY, u.y1 - u.y0, a[i], e, Residual(u.y1, u.y0, m(Benefit, true), m(Benefit, false), e))
            && OffBy(p.phiH, u.h1 - u.h0, a[i], e, Residual(u.h1, u.h0, m(Harm, true), m(Harm, false), e))
            && OffBy(p.psiH1, u.h1, a[i], e, Times(1.0 - e, u.h1 - m(Harm, true)))
  {
    hide Contrast, ArmMean, OffBy, Residual, Times, ClipPropensity, Training;
    var u, e, train := s.us[i], ClipPropensity(s.us[i].propensity), Training(s, a, i);
    var y1, y0 := s.learner(train, Benefit, true, u.features), s.learner(train, Benefit, false, u.features);
    var h1, h0 := s.learner(train, Harm, true, u.features), s.learner(train, Harm, false, u.features);
    ContrastOff(y1, y0, u.y1, u.y0, a[i], e);
    ContrastOff(h1, h0, u.h1, u.h0, a[i], e);
    ArmMeanOff(h1, u.h1, u.h0, a[i], e);
  }

  // ------------------------------------------------------------------ exact predictions

  /** The models that score unit i predict what it would do in either arm. */
  ghost predicate Predicted(s: Study, a: seq<bool>, i: nat)
    requires s.Valid() && |a| == |s.us| && i < |s.us|
  {
    forall arm: bool ::
      && s.learner(Training(s, a, i), Benefit, arm, s.us[i].features) == (if arm then s.us[i].y1 else s.us[i].y0)
      && s.learner(Training(s, a, i), Harm, arm, s.us[i].features) == (if arm then s.us[i].h1 else s.us[i].h0)
  }

  lemma NothingUnexplained(v1: real, v0: real, e: real)
    ensures Residual(v1, v0, v1, v0, e) == 0.0 && Times(1.0 - e, v1 - v1) == 0.0
  {
  }

  lemma OffByNothing(score: real, truth: real, treated: bool, e: real)
    requires 0.0 < e < 1.0 && OffBy(score, truth, treated, e, 0.0)
    ensures score == truth
  {
    var c, d := if treated then e else 1.0 - e, if treated then score - truth else truth - score;
    assert c * d == 0.0;
    assert d == (c * d) / c;
  }

  /**
   Exact predictions make a row exact, under every assignment and whatever the propensity: phi_y is
   y1 - y0, phi_h is h1 - h0 and psi_h1 is h1.
   */
  lemma ExactPredictions(s: Study, a: seq<bool>, k: nat)
    requires s.Valid() && |a| == |s.us| && k < |Order(s)| && Predicted(s, a, Order(s)[k])
    ensures var ps, u := PseudoRows(s.learner, s.folds, s.fitRows, Log(s.us, a)), s.us[Order(s)[k]];
            && |ps| == |Order(s)| && ps[k].opportunityId == u.opportunityId
            && ps[k].phiY == u.y1 - u.y0 && ps[k].phiH == u.h1 - u.h0 && ps[k].psiH1 == u.h1
  {
    ScoreError(s, a, k);
    hide Residual, Times, Training, Order, PseudoRows, Log, OffBy;
    var p, u, e := PseudoRows(s.learner, s.folds, s.fitRows, Log(s.us, a))[k], s.us[Order(s)[k]],
                   ClipPropensity(s.us[Order(s)[k]].propensity);
    NothingUnexplained(u.y1, u.y0, e);
    NothingUnexplained(u.h1, u.h0, e);
    OffByNothing(p.phiY, u.y1 - u.y0, a[Order(s)[k]], e);
    OffByNothing(p.phiH, u.h1 - u.h0, a[Order(s)[k]], e);
    OffByNothing(p.psiH1, u.h1, a[Order(s)[k]], e);
  }

  lemma ExactRow(s: Study, t: Target, a: seq<bool>, i: nat)
    requires s.Valid() && |a| == |s.us| && i < |s.us| && s.us[i].Usable() && Predicted(s, a, i)
    ensures RowValue(s, t, a, i) == Truth(t, s.us[i])
  {
    UnitError(s, a, i);
    hide Residual, Times, Training, OffBy, Score;
    var p, u, e := Score(s.learner, Training(s, a, i), Observe(s.us[i], a[i])), s.us[i],
                   ClipPropensity(s.us[i].propensity);
    NothingUnexplained(u.y1, u.y0, e);
    NothingUnexplained(u.h1, u.h0, e);
    OffByNothing(p.phiY, u.y1 - u.y0, a[i], e);
    OffByNothing(p.phiH, u.h1 - u.h0, a[i], e);
    OffByNothing(p.psiH1, u.h1, a[i], e);
  }

  lemma {:induction false} ExactTotal(s: Study, t: Target, a: seq<bool>, idx: seq<nat>)
    requires s.Valid() && |a| == |s.us| && UsableAt(s.us, idx)
    requires forall k | 0 <= k < |idx| :: Predicted(s, a, idx[k])
    ensures TotalOver(s, t, idx, a) == TruthTotal(t, s.us, idx)
  {
    hide RowValue, Truth, Predicted;
    if idx != [] {
      var n := |idx| - 1;
      ExactTotal(s, t, a, idx[..n]);
      ExactRow(s, t, a, idx[n]);
    }
  }

  /** With exact predictions for its units a group's raw estimate is the truth under every assignment. */
  lemma ExactGroup(t: Target, learner: Learner, wanted: int, hash: string -> nat, fitRows: Option<seq<Row>>,
        us: seq<Unit>, a: seq<bool>, level: nat, key: string, bootstrap: Bootstrap)
    requires |a| == |us| && Keyed(us, level, key, UsableIndices(us)) != []
    requires var s := StudyOf(learner, wanted, hash, fitRows, us, a);
             forall i | i in Keyed(us, level, key, UsableIndices(us)) :: Predicted(s, a, i)
    ensures var group := Keyed(us, level, key, UsableIndices(us));
            EstimateStatistic(t, learner, wanted, hash, fitRows, us, level, key, bootstrap)(a)
            == TruthTotal(t, us, group) / |group| as real
  {
    hide EstimateStatistic, Keyed, Order, TotalOver, TruthTotal, Predicted, MakeFolds, Log, Eligible, UsableIndices;
    var s := StudyOf(learner, wanted, hash, fitRows, us, a);
    FoldsHash(wanted, hash, Eligible(Log(us, a)));
    var visited, group := Keyed(us, level, key, Order(s)), Keyed(us, level, key, UsableIndices(us));
    VisitedGroup(s, level, key);
    EstimateIsShare(t, s, wanted, a, level, key, bootstrap);
    forall k | 0 <= k < |visited| ensures Predicted(s, a, visited[k]) {
      assert visited[k] in group;
    }
    ExactTotal(s, t, a, visited);
    TruthTotalPermutes(t, us, visited, group);
  }
}
