/**
 Episode-clustered cross-fitting of the augmented inverse-propensity estimator. The fitted
 outcome model is an arbitrary learner: it sees the training rows, and of the row it predicts
 only the features, which hold neither the assignment nor an outcome.
 */
module CrossFit {
  import opened Wrappers

  datatype Context = Context(
    source: string, kind: string, taskGroup: string, failureType: string, riskTier: string,
    resourceScarcity: string, episodePhase: string, priorAdmissionBin: string)

  datatype Features = Features(context: Context, other: string)

  /** `harm` is None while any of the six detectors has not reported. */
  datatype Row = Row(
    episodeId: string, opportunityId: string, features: Features,
    eligible: bool, censored: bool, secondIntervention: bool,
    y: Option<real>, harm: Option<real>, treated: bool, propensity: real)
  {
    predicate Usable() {
      eligible && !censored && !secondIntervention && y.Some? && harm.Some?
    }
  }

  datatype Outcome = Benefit | Harm

  type Learner = (seq<Row>, Outcome, bool, Features) -> real

  datatype PseudoRow = PseudoRow(
    episodeId: string, opportunityId: string, context: Context, treated: bool, propensity: real,
    phiY: real, phiH: real, psiH1: real, y: real, harm: real)

  function ClipPropensity(p: real): (r: real)
    ensures 0.2 <= r <= 0.8
    ensures 0.2 <= p <= 0.8 ==> r == p
    ensures p <= 0.2 ==> r == 0.2
    ensures p >= 0.8 ==> r == 0.8
  {
    var low := if p >= 0.2 then p else 0.2;
    if low <= 0.8 then low else 0.8
  }

  /** The doubly robust contrast from predictions `m1`, `m0` and the observed outcome `v`. */
  function Contrast(m1: real, m0: real, treated: bool, v: real, e: real): real
    requires 0.0 < e < 1.0
  {
    m1 - m0 + (if treated then (v - m1) / e else 0.0) - (if treated then 0.0 else (v - m0) / (1.0 - e))
  }

  function ArmMean(m1: real, treated: bool, v: real, e: real): real
    requires 0.0 < e < 1.0
  {
    m1 + if treated then (v - m1) / e else 0.0
  }

  function Score(learner: Learner, train: seq<Row>, r: Row): PseudoRow
    requires r.Usable()
  {
    var e := ClipPropensity(r.propensity);
    var y, h := r.y.value, r.harm.value;
    var y1, y0 := learner(train, Benefit, true, r.features), learner(train, Benefit, false, r.features);
    var h1, h0 := learner(train, Harm, true, r.features), learner(train, Harm, false, r.features);
    PseudoRow(r.episodeId, r.opportunityId, r.features.context, r.treated, e,
              Contrast(y1, y0, r.treated, y, e), Contrast(h1, h0, r.treated, h, e),
              ArmMean(h1, r.treated, h, e), y, h)
  }

  predicate AllUsable(rows: seq<Row>) {
    forall k | 0 <= k < |rows| :: rows[k].Usable()
  }

  function Eligible(rows: seq<Row>): (r: seq<Row>)
    ensures AllUsable(r)
  {
    if rows == [] then [] else
      var last := rows[|rows| - 1];
      Eligible(rows[..|rows| - 1]) + if last.Usable() then [last] else []
  }

  datatype Folds = Folds(count: nat, hash: string -> nat)
  {
    predicate Valid() { count > 0 }

    function Of(episode: string): (f: nat)
      requires Valid()
      ensures f < count
    {
      hash(episode) % count
    }
  }

  function Episodes(rows: seq<Row>): set<string> {
    set r | r in rows :: r.episodeId
  }

  /** Never more folds than episodes, and always at least one. */
  function MakeFolds(wanted: int, hash: string -> nat, rows: seq<Row>): (folds: Folds)
    ensures folds.Valid()
  {
    var n := |Episodes(rows)|;
    var m := if wanted <= n then wanted else n;
    Folds(if m >= 1 then m else 1, hash)
  }

  type FoldOf<!T> = T -> nat

  function Select<T>(foldOf: FoldOf<T>, s: seq<T>, fold: nat, inside: bool): (r: seq<T>)
    ensures forall x | x in r :: (foldOf(x) == fold) == inside
  {
    if s == [] then [] else
      var last := s[|s| - 1];
      Select(foldOf, s[..|s| - 1], fold, inside) + if (foldOf(last) == fold) == inside then [last] else []
  }

  /** The order in which cross-fitting visits its rows: fold by fold. */
  function Visited<T>(foldOf: FoldOf<T>, s: seq<T>, upTo: nat): seq<T> {
    if upTo == 0 then [] else Visited(foldOf, s, upTo - 1) + Select(foldOf, s, upTo - 1, true)
  }

  function RowFold(folds: Folds): FoldOf<Row>
    requires folds.Valid()
  {
    (r: Row) => folds.Of(r.episodeId)
  }

  /** The rows the models that score a given episode are fitted on. */
  function TrainingFor(folds: Folds, eligible: seq<Row>, fitRows: Option<seq<Row>>, episode: string): seq<Row>
    requires folds.Valid()
  {
    match fitRows
    case Some(external) => external
    case None => Select(RowFold(folds), eligible, folds.Of(episode), false)
  }

  function ScoreAll(learner: Learner, folds: Folds, eligible: seq<Row>, fitRows: Option<seq<Row>>,
        rows: seq<Row>): (r: seq<PseudoRow>)
    requires folds.Valid() && AllUsable(rows)
    ensures |r| == |rows|
  {
    if rows == [] then [] else
      var last := rows[|rows| - 1];
      ScoreAll(learner, folds, eligible, fitRows, rows[..|rows| - 1])
      + [Score(learner, TrainingFor(folds, eligible, fitRows, last.episodeId), last)]
  }

  lemma {:induction false} SelectUsable(foldOf: FoldOf<Row>, s: seq<Row>, fold: nat, inside: bool)
    requires AllUsable(s)
    ensures AllUsable(Select(foldOf, s, fold, inside))
  {
    if s != [] { SelectUsable(foldOf, s[..|s| - 1], fold, inside); }
  }

  lemma {:induction false} VisitedUsable(foldOf: FoldOf<Row>, s: seq<Row>, upTo: nat)
    requires AllUsable(s)
    ensures AllUsable(Visited(foldOf, s, upTo))
  {
    if upTo > 0 {
      VisitedUsable(foldOf, s, upTo - 1);
      SelectUsable(foldOf, s, upTo - 1, true);
    }
  }

  /** The whole result as a function of the rows. */
  function PseudoRows(learner: Learner, folds: Folds, fitRows: Option<seq<Row>>, rows: seq<Row>): seq<PseudoRow>
    requires folds.Valid()
  {
    var el := Eligible(rows);
    VisitedUsable(RowFold(folds), el, folds.count);
    ScoreAll(learner, folds, el, fitRows, Visited(RowFold(folds), el, folds.count))
  }

  lemma ScoreOneMore(learner: Learner, folds: Folds, el: seq<Row>, fitRows: Option<seq<Row>>, seen: seq<Row>, r: Row)
    requires folds.Valid() && AllUsable(seen) && r.Usable()
    ensures AllUsable(seen + [r])
    ensures ScoreAll(learner, folds, el, fitRows, seen + [r])
         == ScoreAll(learner, folds, el, fitRows, seen)
            + [Score(learner, TrainingFor(folds, el, fitRows, r.episodeId), r)]
  {
    hide Score, TrainingFor;
    assert (seen + [r])[..|seen|] == seen;
  }

  /** Cross-fitting in its two loops: a loop over folds, a loop over the rows of each fold. */
  method Run(learner: Learner, wanted: int, hash: string -> nat, fitRows: Option<seq<Row>>, rows: seq<Row>)
    returns (pseudo: seq<PseudoRow>)
    ensures pseudo == PseudoRows(learner, MakeFolds(wanted, hash, Eligible(rows)), fitRows, rows)
  {
    hide Score, ScoreAll, Eligible, Select, MakeFolds, Folds.Of;
    var el := Eligible(rows);
    var folds := MakeFolds(wanted, hash, el);
    var foldOf := RowFold(folds);
    pseudo := [];
    ghost var seen: seq<Row> := [];
    assert ScoreAll(learner, folds, el, fitRows, []) == [];
    for fold := 0 to folds.count
      invariant seen == Visited(foldOf, el, fold) && AllUsable(seen)
      invariant pseudo == ScoreAll(learner, folds, el, fitRows, seen)
    {
      SelectUsable(foldOf, el, fold, true);
      var test := Select(foldOf, el, fold, true);
      var train := if fitRows.Some? then fitRows.value else Select(foldOf, el, fold, false);
      for i := 0 to |test|
        invariant seen == Visited(foldOf, el, fold) + test[..i] && AllUsable(seen)
        invariant pseudo == ScoreAll(learner, folds, el, fitRows, seen)
      {
        assert foldOf(test[i]) == fold;
        ScoreOneMore(learner, folds, el, fitRows, seen, test[i]);
        seen := seen + [test[i]];
        pseudo := pseudo + [Score(learner, train, test[i])];
      }
    }
  }

  // ------------------------------------------------------------------ fold separation and coverage

  lemma {:induction false} ScoredByOwnTraining(learner: Learner, folds: Folds, el: seq<Row>,
        fitRows: Option<seq<Row>>, rows: seq<Row>, k: nat)
    requires folds.Valid() && AllUsable(rows)
    requires k < |rows|
    ensures ScoreAll(learner, folds, el, fitRows, rows)[k]
         == Score(learner, TrainingFor(folds, el, fitRows, rows[k].episodeId), rows[k])
  {
    if k < |rows| - 1 {
      ScoredByOwnTraining(learner, folds, el, fitRows, rows[..|rows| - 1], k);
    }
  }

  /** Without external fitting rows, no row of an episode helps to score that episode. */
  lemma TrainingExcludesEpisode(folds: Folds, el: seq<Row>, episode: string)
    requires folds.Valid()
    ensures forall x | x in TrainingFor(folds, el, None, episode) :: x.episodeId != episode
  {
  }

  /** A row is used as often as it was logged if it is eligible, clean and fully labelled, else never. */
  lemma {:induction false} EligibleExactly(rows: seq<Row>, r: Row)
    ensures multiset(Eligible(rows))[r]
         == if r.eligible && !r.censored && !r.secondIntervention && r.y != None && r.harm != None
            then multiset(rows)[r] else 0
  {
    if rows != [] {
      var init, last := rows[..|rows| - 1], rows[|rows| - 1];
      assert rows == init + [last];
      EligibleExactly(init, r);
    }
  }

  lemma SelectOneMore(foldOf: FoldOf<Row>, s: seq<Row>, fold: nat, inside: bool, last: Row)
    ensures Select(foldOf, s + [last], fold, inside)
         == Select(foldOf, s, fold, inside) + if (foldOf(last) == fold) == inside then [last] else []
  {
    assert (s + [last])[..|s|] == s;
  }

  lemma {:induction false} SelectCount(foldOf: FoldOf<Row>, s: seq<Row>, fold: nat, inside: bool, x: Row)
    ensures multiset(Select(foldOf, s, fold, inside))[x] == if (foldOf(x) == fold) == inside then multiset(s)[x] else 0
  {
    if s != [] {
      hide Select;
      var init, last := s[..|s| - 1], s[|s| - 1];
      assert s == init + [last];
      SelectCount(foldOf, init, fold, inside, x);
      SelectOneMore(foldOf, init, fold, inside, last);
    }
  }

  /** Without external rows an episode is predicted from every eligible row of the other folds, and no other. */
  lemma TrainingIsOtherFolds(folds: Folds, el: seq<Row>, episode: string, r: Row)
    requires folds.Valid()
    ensures multiset(TrainingFor(folds, el, None, episode))[r]
         == if folds.Of(r.episodeId) == folds.Of(episode) then 0 else multiset(el)[r]
  {
    hide Folds.Of;
    SelectCount(RowFold(folds), el, folds.Of(episode), false, r);
  }

  /** As many folds as asked for, between one and the number of episodes. */
  lemma FoldCount(wanted: int, hash: string -> nat, rows: seq<Row>)
    ensures var n, episodes := MakeFolds(wanted, hash, rows).count, |Episodes(rows)|;
            && (1 <= wanted <= episodes ==> n == wanted)
            && (wanted > episodes && episodes > 0 ==> n == episodes)
            && (wanted < 1 || episodes == 0 ==> n == 1)
  {
  }

  /** Members of `s` whose fold is below `upTo`, as a multiset. */
  function Below<T>(foldOf: FoldOf<T>, s: seq<T>, upTo: nat): multiset<T> {
    if s == [] then multiset{} else
      var last := s[|s| - 1];
      Below(foldOf, s[..|s| - 1], upTo) + if foldOf(last) < upTo then multiset{last} else multiset{}
  }

  lemma {:induction false} BelowStep<T>(foldOf: FoldOf<T>, s: seq<T>, fold: nat)
    ensures Below(foldOf, s, fold + 1) == Below(foldOf, s, fold) + multiset(Select(foldOf, s, fold, true))
  {
    if s != [] {
      BelowStep(foldOf, s[..|s| - 1], fold);
    }
  }

  lemma {:induction false} BelowEnds<T>(foldOf: FoldOf<T>, s: seq<T>, count: nat)
    ensures Below(foldOf, s, 0) == multiset{}
    ensures (forall x | x in s :: foldOf(x) < count) ==> Below(foldOf, s, count) == multiset(s)
  {
    if s != [] {
      var init, last := s[..|s| - 1], s[|s| - 1];
      assert s == init + [last];
      BelowEnds(foldOf, init, count);
    }
  }

  lemma {:induction false} VisitedBelow<T>(foldOf: FoldOf<T>, s: seq<T>, upTo: nat)
    ensures multiset(Visited(foldOf, s, upTo)) == Below(foldOf, s, upTo)
  {
    hide Below, Select;
    if upTo == 0 {
      BelowEnds(foldOf, s, 0);
    } else {
      VisitedBelow(foldOf, s, upTo - 1);
      BelowStep(foldOf, s, upTo - 1);
    }
  }

  /** Visiting fold by fold reorders the rows and neither loses nor repeats any. */
  lemma VisitedPermutes<T>(foldOf: FoldOf<T>, s: seq<T>, count: nat)
    requires forall x | x in s :: foldOf(x) < count
    ensures multiset(Visited(foldOf, s, count)) == multiset(s)
  {
    VisitedBelow(foldOf, s, count);
    BelowEnds(foldOf, s, count);
  }

  /**
   Every eligible labelled row is scored exactly once, by models fitted without any row of its
   own episode.
   */
  lemma EachRowOnceOutOfFold(learner: Learner, folds: Folds, rows: seq<Row>)
    requires folds.Valid()
    ensures var el := Eligible(rows);
            var order := Visited(RowFold(folds), el, folds.count);
            && multiset(order) == multiset(el)
            && |PseudoRows(learner, folds, None, rows)| == |el|
            && forall k | 0 <= k < |order| ::
                 && order[k].Usable()
                 && (forall x | x in TrainingFor(folds, el, None, order[k].episodeId) ::
                       x.episodeId != order[k].episodeId)
                 && PseudoRows(learner, folds, None, rows)[k]
                    == Score(learner, TrainingFor(folds, el, None, order[k].episodeId), order[k])
  {
    var el := Eligible(rows);
    var order := Visited(RowFold(folds), el, folds.count);
    VisitedUsable(RowFold(folds), el, folds.count);
    VisitedPermutes(RowFold(folds), el, folds.count);
    assert |multiset(order)| == |order| && |multiset(el)| == |el|;
    forall k | 0 <= k < |order|
      ensures order[k].Usable()
      ensures PseudoRows(learner, folds, None, rows)[k]
           == Score(learner, TrainingFor(folds, el, None, order[k].episodeId), order[k])
    {
      ScoredByOwnTraining(learner, folds, el, None, order, k);
    }
  }
}
