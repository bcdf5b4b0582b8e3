/** What the opportunity logger lets through, and what that buys the estimator. */
module OpportunityLog {
  import opened Wrappers
  import opened Expectation
  import opened CrossFit
  import opened Unbiased

  const SUM_TOLERANCE := 0.000001

  /** The parts of a logged row the validation looks at; `missing` are its absent required fields. */
  datatype LogRow = LogRow(
    missing: set<string>, schemaMatches: bool, eligible: bool, reason: string,
    propensityReuse: real, propensityBase: real)

  datatype LogError = MissingFields(fields: set<string>) | UnsupportedSchema | EligibilityContradiction
                    | PositivityViolation(p: real) | PropensitiesDoNotSum

  function Validate(r: LogRow): (v: Result<real, LogError>)
    ensures v.Ok? <==>
              && r.missing == {} && r.schemaMatches
              && (if r.eligible then 0.2 <= r.propensityReuse <= 0.8
                                     && -SUM_TOLERANCE <= r.propensityReuse + r.propensityBase - 1.0 <= SUM_TOLERANCE
                  else r.reason != "eligible")
    ensures v.Err? && v.error.PositivityViolation? ==> r.missing == {} && r.schemaMatches && r.eligible
  {
    var sum := r.propensityReuse + r.propensityBase;
    if r.missing != {} then Err(MissingFields(r.missing))
    else if !r.schemaMatches then Err(UnsupportedSchema)
    else if !r.eligible && r.reason == "eligible" then Err(EligibilityContradiction)
    else if r.eligible && !(0.2 <= r.propensityReuse <= 0.8) then Err(PositivityViolation(r.propensityReuse))
    else if r.eligible && !(-SUM_TOLERANCE <= sum - 1.0 <= SUM_TOLERANCE) then Err(PropensitiesDoNotSum)
    else Ok(r.propensityReuse)
  }

  /** The mean over one randomized arm of the contrast scored with the clipped propensity. */
  function ClippedMean(p: real, m1: real, m0: real, v1: real, v0: real): real {
    Mix(p, Contrast(m1, m0, true, v1, ClipPropensity(p)), Contrast(m1, m0, false, v0, ClipPropensity(p)))
  }

  /**
   The clipping of propensities is harmless exactly inside the window the logger enforces: outside
   it some predictions and outcomes make the contrast biased.
   */
  lemma UnbiasedIffInWindow(p: real)
    ensures 0.2 <= p <= 0.8 <==> forall m1, m0, v1, v0 :: ClippedMean(p, m1, m0, v1, v0) == v1 - v0
  {
    if 0.2 <= p <= 0.8 {
      forall m1, m0, v1, v0 ensures ClippedMean(p, m1, m0, v1, v0) == v1 - v0 {
        ContrastUnbiased(m1, m0, v1, v0, p);
      }
    }
    if forall m1, m0, v1, v0 :: ClippedMean(p, m1, m0, v1, v0) == v1 - v0 {
      assert ClippedMean(p, 0.0, 0.0, 1.0, 0.0) == 1.0;
      UnitContrast(p, ClipPropensity(p));
    }
  }

  lemma UnitContrast(p: real, e: real)
    requires 0.0 < e < 1.0
    ensures Mix(p, Contrast(0.0, 0.0, true, 1.0, e), Contrast(0.0, 0.0, false, 0.0, e)) == 1.0 ==> p == e
  {
    var x := 1.0 / e;
    assert x * e == 1.0;
    assert Contrast(0.0, 0.0, true, 1.0, e) == x;
    assert Contrast(0.0, 0.0, false, 0.0, e) == 0.0 by { assert 0.0 / (1.0 - e) == 0.0; }
    if p * x == 1.0 {
      assert (p - e) * x == 0.0;
      assert (p - e) * x * e == p - e;
    }
  }

  /** The log rows belong to the units: same eligibility, same propensity of reuse. */
  predicate Describes(logs: seq<LogRow>, us: seq<Unit>) {
    |logs| == |us| && forall k | 0 <= k < |us| ::
      logs[k].eligible == us[k].eligible && logs[k].propensityReuse == us[k].propensity
  }

  /**
   A log all of whose rows pass validation supports unbiased estimation: no assumption on the
   propensities is left to the caller.
   */
  lemma ValidatedLogUnbiased(logs: seq<LogRow>, t: Target, learner: Learner, wanted: int, hash: string -> nat,
                             fitRows: Option<seq<Row>>, us: seq<Unit>)
    requires UsableIndices(us) != []
    requires Describes(logs, us) && forall k | 0 <= k < |logs| :: Validate(logs[k]).Ok?
    ensures Expect(Propensities(us), MeanStatistic(t, learner, wanted, hash, fitRows, us))
         == TruthTotal(t, us, UsableIndices(us)) / |UsableIndices(us)| as real
  {
    hide Expect, MeanStatistic, TruthTotal;
    forall k | k in UsableIndices(us) ensures Positive(us[k]) {
      assert Validate(logs[k]).Ok? && logs[k].eligible;
    }
    DesignUnbiased(t, learner, wanted, hash, fitRows, us);
  }
}
