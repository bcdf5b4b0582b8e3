/**
 Design unbiasedness of the cross-fitted estimator: over the randomized assignments alone, with
 every potential outcome held fixed, the estimates are right on average whatever was fitted.
 */
module Unbiased {
  import opened Wrappers
  import opened CrossFit
  import opened Expectation

  /** One opportunity with both of its potential outcomes, of which the log will hold one. */
  datatype Unit = Unit(
    episodeId: string, opportunityId: string, features: Features,
    eligible: bool, censored: bool, secondIntervention: bool, labelled: bool,
    propensity: real, y0: real, y1: real, h0: real, h1: real)
  {
    predicate Usable() {
      eligible && !censored && !secondIntervention && labelled
    }
  }

  function Observe(u: Unit, treated: bool): Row {
    Row(u.episodeId, u.opportunityId, u.features, u.eligible, u.censored, u.secondIntervention,
        if u.labelled then Some(if treated then u.y1 else u.y0) else None,
        if u.labelled then Some(if treated then u.h1 else u.h0) else None,
        treated, u.propensity)
  }

  predicate InRange(us: seq<Unit>, idx: seq<nat>) {
    forall k | 0 <= k < |idx| :: idx[k] < |us|
  }

  /** The logged rows of the units `idx` under assignment `a`. */
  function Pick(us: seq<Unit>, a: seq<bool>, idx: seq<nat>): (r: seq<Row>)
    requires |a| == |us| && InRange(us, idx)
    ensures |r| == |idx|
  {
    seq(|idx|, k requires 0 <= k < |idx| => Observe(us[idx[k]], a[idx[k]]))
  }

  function Log(us: seq<Unit>, a: seq<bool>): (r: seq<Row>)
    requires |a| == |us|
    ensures |r| == |us|
  {
    seq(|us|, k requires 0 <= k < |us| => Observe(us[k], a[k]))
  }

  function UsableIndices(us: seq<Unit>): (r: seq<nat>)
    ensures forall k | 0 <= k < |r| :: r[k] < |us| && us[r[k]].Usable()
  {
    if us == [] then [] else
      var n := |us| - 1;
      UsableIndices(us[..n]) + if us[n].Usable() then [n] else []
  }

  /** Which rows are eligible does not depend on the assignment. */
  lemma {:induction false} EligibleFixed(us: seq<Unit>, a: seq<bool>)
    requires |a| == |us|
    ensures Eligible(Log(us, a)) == Pick(us, a, UsableIndices(us))
  {
    if us != [] {
      var n := |us| - 1;
      EligibleFixed(us[..n], a[..n]);
      assert Log(us, a)[..n] == Log(us[..n], a[..n]);
      assert Pick(us, a, UsableIndices(us[..n])) == Pick(us[..n], a[..n], UsableIndices(us[..n]));
    }
  }

  function UnitFold(folds: Folds, us: seq<Unit>): FoldOf<nat>
    requires folds.Valid()
  {
    (i: nat) => if i < |us| then folds.Of(us[i].episodeId) else 0
  }

  lemma {:induction false} SelectFixed(folds: Folds, us: seq<Unit>, a: seq<bool>, idx: seq<nat>, fold: nat,
        inside: bool)
    requires folds.Valid() && |a| == |us| && InRange(us, idx)
    ensures InRange(us, Select(UnitFold(folds, us), idx, fold, inside))
    ensures Select(RowFold(folds), Pick(us, a, idx), fold, inside)
         == Pick(us, a, Select(UnitFold(folds, us), idx, fold, inside))
  {
    hide Folds.Of, Pick;
    if idx == [] {
      EmptyPick(us, a);
    } else {
      var n := |idx| - 1;
      SelectFixed(folds, us, a, idx[..n], fold, inside);
      PickLast(us, a, idx);
      var kept := Select(UnitFold(folds, us), idx[..n], fold, inside);
      PickLast(us, a, kept + [idx[n]]);
      assert (kept + [idx[n]])[..|kept|] == kept && kept + [] == kept;
      var before := Pick(us, a, idx[..n]);
      assert (before + [Observe(us[idx[n]], a[idx[n]])])[..n] == before;
    }
  }

  lemma PickLast(us: seq<Unit>, a: seq<bool>, idx: seq<nat>)
    requires |a| == |us| && InRange(us, idx) && idx != []
    ensures var n := |idx| - 1;
            && InRange(us, idx[..n])
            && Pick(us, a, idx) == Pick(us, a, idx[..n]) + [Observe(us[idx[n]], a[idx[n]])]
  {
    hide Observe;
  }

  lemma EmptyPick(us: seq<Unit>, a: seq<bool>)
    requires |a| == |us|
    ensures InRange(us, []) && Pick(us, a, []) == []
  {
  }

  lemma PickAppend(us: seq<Unit>, a: seq<bool>, idx: seq<nat>, jdx: seq<nat>)
    requires |a| == |us| && InRange(us, idx) && InRange(us, jdx)
    ensures InRange(us, idx + jdx)
    ensures Pick(us, a, idx + jdx) == Pick(us, a, idx) + Pick(us, a, jdx)
  {
    hide Observe;
  }

  lemma {:induction false} VisitedFixed(folds: Folds, us: seq<Unit>, a: seq<bool>, idx: seq<nat>, upTo: nat)
    requires folds.Valid() && |a| == |us| && InRange(us, idx)
    ensures InRange(us, Visited(UnitFold(folds, us), idx, upTo))
    ensures Visited(RowFold(folds), Pick(us, a, idx), upTo) == Pick(us, a, Visited(UnitFold(folds, us), idx, upTo))
  {
    hide Select, Pick, InRange;
    if upTo > 0 {
      VisitedFixed(folds, us, a, idx, upTo - 1);
      SelectFixed(folds, us, a, idx, upTo - 1, true);
      PickAppend(us, a, Visited(UnitFold(folds, us), idx, upTo - 1), Select(UnitFold(folds, us), idx, upTo - 1, true));
    } else {
      EmptyPick(us, a);
    }
  }

  // ------------------------------------------------------------------ one row

  /** The three pseudo-outcomes and what each of them is meant to estimate. */
  datatype Target = DeltaY | RiskInc | RiskAbs

  function ValueOf(t: Target, p: PseudoRow): real {
    match t
    case DeltaY => p.phiY
    case RiskInc => p.phiH
    case RiskAbs => p.psiH1
  }

  function Truth(t: Target, u: Unit): real {
    match t
    case DeltaY => u.y1 - u.y0
    case RiskInc => u.h1 - u.h0
    case RiskAbs => u.h1
  }

  /** Inverse weighting by the true propensity cancels any predictions. */
  lemma ContrastUnbiased(m1: real, m0: real, v1: real, v0: real, e: real)
    requires 0.0 < e < 1.0
    ensures Mix(e, Contrast(m1, m0, true, v1, e), Contrast(m1, m0, false, v0, e)) == v1 - v0
    ensures Mix(e, ArmMean(m1, true, v1, e), ArmMean(m1, false, v0, e)) == v1
  {
    var x, z := (v1 - m1) / e, (v0 - m0) / (1.0 - e);
    assert e * x == v1 - m1;
    assert (1.0 - e) * z == v0 - m0;
    assert e * (m1 - m0 + x) == e * (m1 - m0) + e * x;
    assert (1.0 - e) * (m1 - m0 - z) == (1.0 - e) * (m1 - m0) - (1.0 - e) * z;
    assert e * (m1 + x) + (1.0 - e) * m1 == m1 + e * x;
  }

  datatype Study = Study(learner: Learner, folds: Folds, fitRows: Option<seq<Row>>, us: seq<Unit>)
  {
    predicate Valid() {
      folds.Valid()
    }
  }

  /** The training rows behind unit i's predictions, as logged under assignment `a`. */
  function Training(s: Study, a: seq<bool>, i: nat): seq<Row>
    requires s.Valid() && |a| == |s.us| && i < |s.us|
  {
    TrainingFor(s.folds, Pick(s.us, a, UsableIndices(s.us)), s.fitRows, s.us[i].episodeId)
  }

  /** Flipping a unit's arm leaves the rows it is predicted from untouched. */
  lemma TrainingIgnoresOwnArm(s: Study, a: seq<bool>, i: nat, b: bool)
    requires s.Valid() && |a| == |s.us| && i < |s.us|
    ensures Training(s, a[i := b], i) == Training(s, a, i)
  {
    hide Folds.Of;
    var el, fold := UsableIndices(s.us), s.folds.Of(s.us[i].episodeId);
    SelectFixed(s.folds, s.us, a, el, fold, false);
    SelectFixed(s.folds, s.us, a[i := b], el, fold, false);
    var others := Select(UnitFold(s.folds, s.us), el, fold, false);
    forall k | 0 <= k < |others| ensures others[k] != i {
      assert others[k] in others;
    }
    assert Pick(s.us, a[i := b], others) == Pick(s.us, a, others);
  }

  function RowValue(s: Study, t: Target, a: seq<bool>, i: nat): real
    requires s.Valid() && |a| == |s.us| && i < |s.us| && s.us[i].Usable()
  {
    ValueOf(t, Score(s.learner, Training(s, a, i), Observe(s.us[i], a[i])))
  }

  function RowStatistic(s: Study, t: Target, i: nat): Statistic
    requires s.Valid() && i < |s.us| && s.us[i].Usable()
  {
    (a: seq<bool>) => if |a| == |s.us| then RowValue(s, t, a, i) else 0.0
  }

  function Propensities(us: seq<Unit>): (ps: seq<real>)
    ensures |ps| == |us|
  {
    seq(|us|, k requires 0 <= k < |us| => us[k].propensity)
  }

  /** The positivity window every logged eligible row is validated against. */
  predicate Positive(u: Unit) {
    0.2 <= u.propensity <= 0.8
  }

  lemma OneArmEach(s: Study, t: Target, a: seq<bool>, i: nat)
    requires s.Valid() && |a| == |s.us| && i < |s.us| && s.us[i].Usable() && Positive(s.us[i])
    ensures Mix(s.us[i].propensity, RowValue(s, t, a[i := true], i), RowValue(s, t, a[i := false], i))
         == Truth(t, s.us[i])
  {
    hide Mix, Contrast, ArmMean, Training, ClipPropensity;
    var u, train := s.us[i], Training(s, a, i);
    TrainingIgnoresOwnArm(s, a, i, true);
    TrainingIgnoresOwnArm(s, a, i, false);
    ContrastUnbiased(s.learner(train, Benefit, true, u.features), s.learner(train, Benefit, false, u.features),
                     u.y1, u.y0, u.propensity);
    ContrastUnbiased(s.learner(train, Harm, true, u.features), s.learner(train, Harm, false, u.features),
                     u.h1, u.h0, u.propensity);
  }

  /** Each pseudo-outcome is unbiased for its own unit. */
  lemma RowUnbiased(s: Study, t: Target, i: nat)
    requires s.Valid() && i < |s.us| && s.us[i].Usable() && Positive(s.us[i])
    ensures Expect(Propensities(s.us), RowStatistic(s, t, i)) == Truth(t, s.us[i])
  {
    hide Mix, RowValue;
    var ps, f := Propensities(s.us), RowStatistic(s, t, i);
    forall a: seq<bool> | |a| == |ps| ensures Mix(ps[i], f(a[i := true]), f(a[i := false])) == Truth(t, s.us[i]) {
      OneArmEach(s, t, a, i);
    }
    ExpectCoordinate(ps, f, i, Truth(t, s.us[i]));
  }

  // ------------------------------------------------------------------ the whole estimate

  function Total(t: Target, ps: seq<PseudoRow>): real {
    if ps == [] then 0.0 else Total(t, ps[..|ps| - 1]) + ValueOf(t, ps[|ps| - 1])
  }

  function TruthTotal(t: Target, us: seq<Unit>, idx: seq<nat>): real
    requires InRange(us, idx)
  {
    if idx == [] then 0.0 else
      var n := |idx| - 1;
      TruthTotal(t, us, idx[..n]) + Truth(t, us[idx[n]])
  }

  predicate UsableAt(us: seq<Unit>, idx: seq<nat>) {
    forall k | 0 <= k < |idx| :: idx[k] < |us| && us[idx[k]].Usable()
  }

  /** The total over the units `idx`, in the order they are scored. */
  function TotalOver(s: Study, t: Target, idx: seq<nat>, a: seq<bool>): real
    requires s.Valid() && UsableAt(s.us, idx) && |a| == |s.us|
  {
    if idx == [] then 0.0 else
      var n := |idx| - 1;
      TotalOver(s, t, idx[..n], a) + RowValue(s, t, a, idx[n])
  }

  function TotalStatistic(s: Study, t: Target, idx: seq<nat>): Statistic
    requires s.Valid() && UsableAt(s.us, idx)
  {
    (a: seq<bool>) => if |a| == |s.us| then TotalOver(s, t, idx, a) else 0.0
  }

  lemma CombinationOfOnes(x: real, y: real)
    ensures Combination(1.0, x, 1.0, y) == x + y
  {
  }

  lemma {:induction false} TotalUnbiased(s: Study, t: Target, idx: seq<nat>)
    requires s.Valid() && UsableAt(s.us, idx)
    requires forall k | 0 <= k < |idx| :: Positive(s.us[idx[k]])
    ensures Expect(Propensities(s.us), TotalStatistic(s, t, idx)) == TruthTotal(t, s.us, idx)
  {
    hide RowValue, Combination, Expect, Truth;
    var ps, f := Propensities(s.us), TotalStatistic(s, t, idx);
    if idx == [] {
      ExpectConstant(ps, f, 0.0);
    } else {
      var n := |idx| - 1;
      var g, h := TotalStatistic(s, t, idx[..n]), RowStatistic(s, t, idx[n]);
      TotalUnbiased(s, t, idx[..n]);
      RowUnbiased(s, t, idx[n]);
      forall a: seq<bool> | |a| == |ps| ensures f(a) == Combined(1.0, g, 1.0, h)(a) {
        CombinationOfOnes(g(a), h(a));
      }
      ExpectSame(ps, f, Combined(1.0, g, 1.0, h));
      ExpectLinear(ps, 1.0, g, 1.0, h);
      CombinationOfOnes(Expect(ps, g), Expect(ps, h));
    }
  }

  /** Scoring the logged rows in visiting order adds up the same row values. */
  lemma {:induction false} TotalOfScores(s: Study, t: Target, idx: seq<nat>, a: seq<bool>)
    requires s.Valid() && UsableAt(s.us, idx) && |a| == |s.us|
    ensures AllUsable(Pick(s.us, a, idx))
    ensures Total(t, ScoreAll(s.learner, s.folds, Pick(s.us, a, UsableIndices(s.us)), s.fitRows, Pick(s.us, a, idx)))
         == TotalOver(s, t, idx, a)
  {
    hide Score, ValueOf, TrainingFor;
    var rows := Pick(s.us, a, idx);
    if idx != [] {
      var n := |idx| - 1;
      TotalOfScores(s, t, idx[..n], a);
      assert rows[..n] == Pick(s.us, a, idx[..n]);
      var scores := ScoreAll(s.learner, s.folds, Pick(s.us, a, UsableIndices(s.us)), s.fitRows, rows);
      assert scores[..n] == ScoreAll(s.learner, s.folds, Pick(s.us, a, UsableIndices(s.us)), s.fitRows, rows[..n]);
    }
  }

  lemma {:induction false} TruthTotalRemove(t: Target, us: seq<Unit>, idx: seq<nat>, k: nat)
    requires InRange(us, idx) && k < |idx|
    ensures TruthTotal(t, us, idx) == TruthTotal(t, us, idx[..k] + idx[k + 1..]) + Truth(t, us[idx[k]])
  {
    var n := |idx| - 1;
    if k == n {
      assert idx[..k] + idx[k + 1..] == idx[..n];
    } else {
      var rest := idx[..k] + idx[k + 1..];
      TruthTotalRemove(t, us, idx[..n], k);
      assert rest[..n - 1] == idx[..n][..k] + idx[..n][k + 1..];
    }
  }

  /** Where the last index of `idx` sits in a reordering of it. */
  lemma LastElsewhere(idx: seq<nat>, jdx: seq<nat>) returns (k: nat)
    requires idx != [] && multiset(idx) == multiset(jdx)
    ensures k < |jdx| && jdx[k] == idx[|idx| - 1]
    ensures multiset(jdx[..k] + jdx[k + 1..]) == multiset(idx[..|idx| - 1])
  {
    var init, last := idx[..|idx| - 1], idx[|idx| - 1];
    assert idx == init + [last];
    assert last in multiset(jdx);
    k :| 0 <= k < |jdx| && jdx[k] == last;
    var rest := jdx[..k] + jdx[k + 1..];
    assert jdx == jdx[..k] + [last] + jdx[k + 1..];
    assert multiset(jdx) == multiset(rest) + multiset{last};
    assert multiset(rest) == multiset(jdx) - multiset{last};
    assert multiset(init) == multiset(idx) - multiset{last};
  }

  lemma {:induction false} TruthTotalPermutes(t: Target, us: seq<Unit>, idx: seq<nat>, jdx: seq<nat>)
    requires InRange(us, idx) && InRange(us, jdx) && multiset(idx) == multiset(jdx)
    ensures TruthTotal(t, us, idx) == TruthTotal(t, us, jdx)
    decreases |idx|
  {
    hide Truth;
    if idx == [] {
      assert |multiset(jdx)| == 0;
    } else {
      var n := |idx| - 1;
      var k := LastElsewhere(idx, jdx);
      TruthTotalRemove(t, us, jdx, k);
      TruthTotalPermutes(t, us, idx[..n], jdx[..k] + jdx[k + 1..]);
    }
  }

  /** What `CrossFit.Run` yields on the log of assignment `a`. */
  function Logged(learner: Learner, wanted: int, hash: string -> nat, fitRows: Option<seq<Row>>, us: seq<Unit>,
        a: seq<bool>): seq<PseudoRow>
    requires |a| == |us|
  {
    PseudoRows(learner, MakeFolds(wanted, hash, Eligible(Log(us, a))), fitRows, Log(us, a))
  }

  function Mean(t: Target, ps: seq<PseudoRow>): real {
    if ps == [] then 0.0 else Total(t, ps) / |ps| as real
  }

  function MeanStatistic(t: Target, learner: Learner, wanted: int, hash: string -> nat, fitRows: Option<seq<Row>>,
        us: seq<Unit>): Statistic {
    (a: seq<bool>) => if |a| == |us| then Mean(t, Logged(learner, wanted, hash, fitRows, us, a)) else 0.0
  }

  /** The folds are a function of the design, not of the assignment. */
  lemma FoldsFixed(wanted: int, hash: string -> nat, us: seq<Unit>, a: seq<bool>, b: seq<bool>)
    requires |a| == |us| == |b|
    ensures MakeFolds(wanted, hash, Eligible(Log(us, a))) == MakeFolds(wanted, hash, Eligible(Log(us, b)))
  {
    EligibleFixed(us, a);
    EligibleFixed(us, b);
    var r, s := Pick(us, a, UsableIndices(us)), Pick(us, b, UsableIndices(us));
    assert |r| == |s| && forall k | 0 <= k < |r| :: r[k].episodeId == s[k].episodeId;
    SameEpisodes(r, s);
    SameEpisodes(s, r);
    hide Eligible, Log, Pick, UsableIndices;
    assert Episodes(r) == Episodes(s);
  }

  lemma SameEpisodes(r: seq<Row>, s: seq<Row>)
    requires |r| == |s| && forall k | 0 <= k < |r| :: r[k].episodeId == s[k].episodeId
    ensures Episodes(r) <= Episodes(s)
  {
    forall x | x in r ensures x.episodeId in Episodes(s) {
      var k :| 0 <= k < |r| && r[k] == x;
      assert s[k] in s;
    }
  }

  lemma VisitedIndices(s: Study)
    requires s.Valid()
    ensures var el := UsableIndices(s.us);
            var order := Visited(UnitFold(s.folds, s.us), el, s.folds.count);
            && UsableAt(s.us, el) && UsableAt(s.us, order)
            && multiset(order) == multiset(el) && |order| == |el|
  {
    var el := UsableIndices(s.us);
    var order := Visited(UnitFold(s.folds, s.us), el, s.folds.count);
    VisitedPermutes(UnitFold(s.folds, s.us), el, s.folds.count);
    assert |multiset(order)| == |order| && |multiset(el)| == |el|;
    forall k | 0 <= k < |order| ensures order[k] < |s.us| && s.us[order[k]].Usable() {
      assert order[k] in multiset(order);
      assert order[k] in el;
    }
  }

  /** Under any assignment the logged total is the total over the visited units. */
  lemma LoggedTotal(s: Study, t: Target, a: seq<bool>)
    requires s.Valid() && |a| == |s.us|
    ensures var order := Visited(UnitFold(s.folds, s.us), UsableIndices(s.us), s.folds.count);
            var ps := PseudoRows(s.learner, s.folds, s.fitRows, Log(s.us, a));
            && UsableAt(s.us, order)
            && |ps| == |order|
            && Total(t, ps) == TotalOver(s, t, order, a)
  {
    hide Select, Visited, Score, Total, TotalOver;
    var el := UsableIndices(s.us);
    VisitedIndices(s);
    EligibleFixed(s.us, a);
    VisitedFixed(s.folds, s.us, a, el, s.folds.count);
    TotalOfScores(s, t, Visited(UnitFold(s.folds, s.us), el, s.folds.count), a);
  }

  /**
   The mean of each pseudo-outcome over a cross-fitted log has, over the randomization, exactly
   the mean it is meant to estimate over the eligible labelled units. The learner, the fold hash
   and external fitting rows are arbitrary.
   */
  lemma DesignUnbiased(t: Target, learner: Learner, wanted: int, hash: string -> nat, fitRows: Option<seq<Row>>,
        us: seq<Unit>)
    requires UsableIndices(us) != []
    requires forall k | k in UsableIndices(us) :: Positive(us[k])
    ensures Expect(Propensities(us), MeanStatistic(t, learner, wanted, hash, fitRows, us))
         == TruthTotal(t, us, UsableIndices(us)) / |UsableIndices(us)| as real
  {
    hide Expect, Combination, Total, TotalOver, TruthTotal, PseudoRows, MakeFolds, Visited, Truth;
    var el, none := UsableIndices(us), seq(|us|, k => false);
    var s := Study(learner, MakeFolds(wanted, hash, Eligible(Log(us, none))), fitRows, us);
    var order := Visited(UnitFold(s.folds, us), el, s.folds.count);
    VisitedIndices(s);
    forall k | 0 <= k < |order| ensures Positive(us[order[k]]) {
      assert order[k] in multiset(order);
      assert order[k] in el;
    }
    TotalUnbiased(s, t, order);
    TruthTotalPermutes(t, us, order, el);
    var ps, f, g := Propensities(us), MeanStatistic(t, learner, wanted, hash, fitRows, us), TotalStatistic(s, t, order);
    var w := 1.0 / |el| as real;
    forall a: seq<bool> | |a| == |us| ensures f(a) == Combined(w, g, 0.0, g)(a) {
      FoldsFixed(wanted, hash, us, a, none);
      LoggedTotal(s, t, a);
      Scale(g(a), |el|);
    }
    ExpectSame(ps, f, Combined(w, g, 0.0, g));
    ExpectLinear(ps, w, g, 0.0, g);
    Scale(Expect(ps, g), |el|);
  }

  lemma Scale(x: real, n: nat)
    requires n > 0
    ensures Combination(1.0 / n as real, x, 0.0, x) == x / n as real
  {
  }
}
