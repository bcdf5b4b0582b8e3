/**
 The two halves of the estimator together: the raw estimate aggregation makes of a context group
 from a cross-fitted log is, over the randomization, right on average for the units of that group.
 */
module GroupUnbiased {
  import opened Wrappers
  import opened Expectation
  import opened CrossFit
  import opened Evidence
  import opened Unbiased

  /** The units among `idx` whose context has the given key on the given level. */
  function Keyed(us: seq<Unit>, level: nat, key: string, idx: seq<nat>): (r: seq<nat>)
    requires InRange(us, idx)
    ensures InRange(us, r) && forall i | i in r :: i in idx
  {
    if idx == [] then [] else
      var n := |idx| - 1;
      Keyed(us, level, key, idx[..n]) + if KeyAt(level, us[idx[n]].features.context) == key then [idx[n]] else []
  }

  lemma {:induction false} KeyedOccurrences(us: seq<Unit>, level: nat, key: string, idx: seq<nat>, i: nat)
    requires InRange(us, idx) && i < |us|
    ensures multiset(Keyed(us, level, key, idx))[i]
         == if KeyAt(level, us[i].features.context) == key then multiset(idx)[i] else 0
  {
    hide KeyAt;
    if idx != [] {
      var n := |idx| - 1;
      KeyedOccurrences(us, level, key, idx[..n], i);
      assert idx == idx[..n] + [idx[n]];
    }
  }

  /** Filtering by key does not care about the order of the units. */
  lemma KeyedPermutes(us: seq<Unit>, level: nat, key: string, idx: seq<nat>, jdx: seq<nat>)
    requires InRange(us, idx) && InRange(us, jdx) && multiset(idx) == multiset(jdx)
    ensures multiset(Keyed(us, level, key, idx)) == multiset(Keyed(us, level, key, jdx))
  {
    hide Keyed;
    var r, s := Keyed(us, level, key, idx), Keyed(us, level, key, jdx);
    forall i | i in r || i in s ensures multiset(r)[i] == multiset(s)[i] {
      KeyedOccurrences(us, level, key, idx, i);
      KeyedOccurrences(us, level, key, jdx, i);
    }
  }

  lemma KeyedUsable(us: seq<Unit>, level: nat, key: string, idx: seq<nat>)
    requires UsableAt(us, idx)
    ensures UsableAt(us, Keyed(us, level, key, idx))
  {
    hide Keyed;
    var r := Keyed(us, level, key, idx);
    forall k | 0 <= k < |r| ensures r[k] < |us| && us[r[k]].Usable() {
      assert r[k] in idx;
    }
  }

  lemma PickUsable(us: seq<Unit>, a: seq<bool>, idx: seq<nat>)
    requires UsableAt(us, idx) && |a| == |us|
    ensures AllUsable(Pick(us, a, idx))
  {
  }

  /** The order in which the usable units are visited: fold by fold. */
  function Order(s: Study): (r: seq<nat>)
    requires s.Valid()
    ensures UsableAt(s.us, r)
  {
    VisitedIndices(s);
    Visited(UnitFold(s.folds, s.us), UsableIndices(s.us), s.folds.count)
  }

  /** The scored rows of the units `idx`, in that order. */
  function Scores(s: Study, el: seq<Row>, a: seq<bool>, idx: seq<nat>): seq<PseudoRow>
    requires s.Valid() && |a| == |s.us| && UsableAt(s.us, idx)
  {
    PickUsable(s.us, a, idx);
    ScoreAll(s.learner, s.folds, el, s.fitRows, Pick(s.us, a, idx))
  }

  function UnitScore(s: Study, el: seq<Row>, a: seq<bool>, i: nat): (p: PseudoRow)
    requires s.Valid() && |a| == |s.us| && i < |s.us| && s.us[i].Usable()
    ensures p.context == s.us[i].features.context
  {
    Score(s.learner, TrainingFor(s.folds, el, s.fitRows, s.us[i].episodeId), Observe(s.us[i], a[i]))
  }

  lemma ScoresOneMore(s: Study, el: seq<Row>, a: seq<bool>, idx: seq<nat>, i: nat)
    requires s.Valid() && |a| == |s.us| && UsableAt(s.us, idx) && i < |s.us| && s.us[i].Usable()
    ensures UsableAt(s.us, idx + [i])
    ensures Scores(s, el, a, idx + [i]) == Scores(s, el, a, idx) + [UnitScore(s, el, a, i)]
  {
    assert (idx + [i])[..|idx|] == idx;
    PickUsable(s.us, a, idx);
    PickLast(s.us, a, idx + [i]);
    ScoreOneMore(s.learner, s.folds, el, s.fitRows, Pick(s.us, a, idx), Observe(s.us[i], a[i]));
  }

  /** A group of the scored rows is what scoring the units of that group gives. */
  lemma {:induction false} GroupOfScores(s: Study, el: seq<Row>, a: seq<bool>, level: nat, key: string, idx: seq<nat>)
    requires s.Valid() && |a| == |s.us| && UsableAt(s.us, idx)
    ensures InRange(s.us, idx) && UsableAt(s.us, Keyed(s.us, level, key, idx))
    ensures Group(Scores(s, el, a, idx), KeyOf(level), key) == Scores(s, el, a, Keyed(s.us, level, key, idx))
  {
    KeyedUsable(s.us, level, key, idx);
    if idx == [] {
      NoScores(s, el, a);
    } else {
      var init, i := idx[..|idx| - 1], idx[|idx| - 1];
      hide Scores, Keyed, Group, UsableAt, InRange, KeyOf;
      assert idx == init + [i];
      UsableInit(s.us, init, i);
      GroupOfScores(s, el, a, level, key, init);
      GroupStep(s, el, a, level, key, init, i);
    }
  }

  lemma GroupStep(s: Study, el: seq<Row>, a: seq<bool>, level: nat, key: string, idx: seq<nat>, i: nat)
    requires s.Valid() && |a| == |s.us| && UsableAt(s.us, idx) && i < |s.us| && s.us[i].Usable()
    requires InRange(s.us, idx) && UsableAt(s.us, Keyed(s.us, level, key, idx))
    requires Group(Scores(s, el, a, idx), KeyOf(level), key) == Scores(s, el, a, Keyed(s.us, level, key, idx))
    ensures UsableAt(s.us, idx + [i]) && InRange(s.us, idx + [i])
    ensures UsableAt(s.us, Keyed(s.us, level, key, idx + [i]))
    ensures Group(Scores(s, el, a, idx + [i]), KeyOf(level), key)
         == Scores(s, el, a, Keyed(s.us, level, key, idx + [i]))
  {
    KeyedOneMore(s.us, level, key, idx, i);
    hide Scores, UnitScore, KeyAt, Group, Keyed, UsableAt, InRange;
    ScoresOneMore(s, el, a, idx, i);
    var kept, scores, p := Keyed(s.us, level, key, idx), Scores(s, el, a, idx), UnitScore(s, el, a, i);
    GroupOneMore(scores, p, KeyOf(level), key);
    ScoresOneMore(s, el, a, kept, i);
    assert KeyOf(level)(p) == KeyAt(level, s.us[i].features.context);
    hide KeyOf;
    if KeyAt(level, s.us[i].features.context) == key {
      assert Group(scores + [p], KeyOf(level), key) == Group(scores, KeyOf(level), key) + [p];
    } else {
      assert Group(scores + [p], KeyOf(level), key) == Group(scores, KeyOf(level), key) + [];
      assert kept + [] == kept;
    }
  }

  lemma UsableInit(us: seq<Unit>, idx: seq<nat>, i: nat)
    requires UsableAt(us, idx + [i])
    ensures UsableAt(us, idx) && InRange(us, idx) && i < |us| && us[i].Usable()
  {
    assert (idx + [i])[|idx|] == i;
    assert forall k | 0 <= k < |idx| :: (idx + [i])[k] == idx[k];
  }

  lemma NoScores(s: Study, el: seq<Row>, a: seq<bool>)
    requires s.Valid() && |a| == |s.us|
    ensures Scores(s, el, a, []) == []
  {
    assert Pick(s.us, a, []) == [];
  }

  lemma KeyedOneMore(us: seq<Unit>, level: nat, key: string, idx: seq<nat>, i: nat)
    requires InRange(us, idx) && InRange(us, idx + [i]) && i < |us|
    ensures Keyed(us, level, key, idx + [i])
         == Keyed(us, level, key, idx) + if KeyAt(level, us[i].features.context) == key then [i] else []
  {
    assert (idx + [i])[..|idx|] == idx;
  }

  lemma GroupOneMore(pseudo: seq<PseudoRow>, p: PseudoRow, keyOf: Grouping, key: string)
    ensures Group(pseudo + [p], keyOf, key) == Group(pseudo, keyOf, key) + if keyOf(p) == key then [p] else []
  {
    assert (pseudo + [p])[..|pseudo|] == pseudo;
  }

  // ------------------------------------------------------------------ what aggregation estimates

  function Estimate(t: Target, v: GroupValue): real {
    match t
    case DeltaY => v.deltaY
    case RiskInc => v.riskInc
    case RiskAbs => v.riskAbs
  }

  lemma {:induction false} SumsAgree(t: Target, rows: seq<PseudoRow>, get: PseudoRow -> real)
    requires forall p :: get(p) == ValueOf(t, p)
    ensures SumOf(rows, get) == Total(t, rows)
  {
    hide ValueOf;
    if rows != [] { SumsAgree(t, rows[..|rows| - 1], get); }
  }

  /** The point estimates of a raw group estimate are the means of the pseudo-outcomes of its rows. */
  lemma EstimateIsMean(t: Target, rows: seq<PseudoRow>, level: nat, key: string, bootstrap: Bootstrap)
    requires rows != [] && Weighable(rows)
    ensures Estimate(t, RawOf(rows, level, key, bootstrap)) == Mean(t, rows)
  {
    hide Ess, SumOf, Total, KeyAt, Treated;
    match t
    case DeltaY => SumsAgree(t, rows, (r: PseudoRow) => r.phiY);
    case RiskInc => SumsAgree(t, rows, (r: PseudoRow) => r.phiH);
    case RiskAbs => SumsAgree(t, rows, (r: PseudoRow) => r.psiH1);
  }

  /** The raw estimate of one group from the log of each assignment; zero where there is none. */
  function EstimateStatistic(t: Target, learner: Learner, wanted: int, hash: string -> nat,
        fitRows: Option<seq<Row>>, us: seq<Unit>, level: nat, key: string, bootstrap: Bootstrap): Statistic {
    (a: seq<bool>) =>
      if |a| != |us| then 0.0 else
        var pseudo := Logged(learner, wanted, hash, fitRows, us, a);
        if !Weighable(pseudo) || key !in Keys(pseudo, KeyOf(level)) then 0.0
        else Estimate(t, ValueFor(pseudo, level, key, bootstrap))
  }

  /** Scoring fold by fold and then grouping is scoring the visited units of the group. */
  lemma LoggedGroupRows(s: Study, level: nat, key: string, a: seq<bool>)
    requires s.Valid() && |a| == |s.us|
    ensures var visited := Keyed(s.us, level, key, Order(s));
            && UsableAt(s.us, visited)
            && Group(PseudoRows(s.learner, s.folds, s.fitRows, Log(s.us, a)), KeyOf(level), key)
               == Scores(s, Pick(s.us, a, UsableIndices(s.us)), a, visited)
  {
    hide Select, Visited, Score, Keyed, Group, KeyOf;
    var el := UsableIndices(s.us);
    EligibleFixed(s.us, a);
    VisitedFixed(s.folds, s.us, a, el, s.folds.count);
    GroupOfScores(s, Pick(s.us, a, el), a, level, key, Order(s));
  }

  lemma LoggedGroup(s: Study, t: Target, level: nat, key: string, a: seq<bool>)
    requires s.Valid() && |a| == |s.us|
    ensures var visited := Keyed(s.us, level, key, Order(s));
            var rows := Group(PseudoRows(s.learner, s.folds, s.fitRows, Log(s.us, a)), KeyOf(level), key);
            && UsableAt(s.us, visited)
            && |rows| == |visited|
            && Total(t, rows) == TotalOver(s, t, visited, a)
  {
    hide Total, TotalOver, Keyed, Group, KeyOf, Order, PseudoRows, Log;
    LoggedGroupRows(s, level, key, a);
    TotalOfScores(s, t, Keyed(s.us, level, key, Order(s)), a);
  }

  /** The visited units of a group are the units of the group, in another order. */
  lemma VisitedGroup(s: Study, level: nat, key: string)
    requires s.Valid()
    ensures var visited, group := Keyed(s.us, level, key, Order(s)), Keyed(s.us, level, key, UsableIndices(s.us));
            && UsableAt(s.us, visited)
            && multiset(visited) == multiset(group) && |visited| == |group|
            && forall k | 0 <= k < |visited| :: visited[k] in group
  {
    hide Visited, Keyed, UsableIndices;
    var el, order := UsableIndices(s.us), Order(s);
    VisitedIndices(s);
    KeyedPermutes(s.us, level, key, order, el);
    KeyedUsable(s.us, level, key, order);
    var visited, group := Keyed(s.us, level, key, order), Keyed(s.us, level, key, el);
    assert |multiset(visited)| == |visited| && |multiset(group)| == |group|;
    forall k | 0 <= k < |visited| ensures visited[k] in group {
      assert visited[k] in multiset(visited);
    }
  }

  /** Which groups a cross-fitted log has does not depend on the assignment. */
  lemma GroupsFixed(learner: Learner, wanted: int, hash: string -> nat, fitRows: Option<seq<Row>>, us: seq<Unit>,
        a: seq<bool>, level: nat, key: string)
    requires |a| == |us|
    ensures key in Keys(Logged(learner, wanted, hash, fitRows, us, a), KeyOf(level))
            <==> Keyed(us, level, key, UsableIndices(us)) != []
  {
    hide MakeFolds, PseudoRows, Keyed, Group, Keys, KeyOf, Order, TotalOver;
    var el := UsableIndices(us);
    var s := Study(learner, MakeFolds(wanted, hash, Eligible(Log(us, a))), fitRows, us);
    var pseudo := Logged(learner, wanted, hash, fitRows, us, a);
    LoggedGroup(s, DeltaY, level, key, a);
    VisitedGroup(s, level, key);
    if key in Keys(pseudo, KeyOf(level)) {
      KeyHasGroup(pseudo, KeyOf(level), key);
    }
    if Group(pseudo, KeyOf(level), key) != [] {
      var j := GroupMember(pseudo, KeyOf(level), key, 0);
      KeyOccurs(pseudo, KeyOf(level), j);
    }
  }

  /** Under any assignment the estimate is the group's total over its size. */
  lemma EstimateIsShare(t: Target, s: Study, wanted: int, a: seq<bool>, level: nat, key: string, bootstrap: Bootstrap)
    requires |a| == |s.us| && s.folds == MakeFolds(wanted, s.folds.hash, Eligible(Log(s.us, a)))
    requires Keyed(s.us, level, key, UsableIndices(s.us)) != []
    ensures var visited := Keyed(s.us, level, key, Order(s));
            && UsableAt(s.us, visited) && visited != []
            && EstimateStatistic(t, s.learner, wanted, s.folds.hash, s.fitRows, s.us, level, key, bootstrap)(a)
               == TotalOver(s, t, visited, a) / |visited| as real
  {
    hide Total, TotalOver, PseudoRows, MakeFolds, Order, Keyed, KeyOf, Group, Estimate, RawOf, Keys;
    var pseudo := Logged(s.learner, wanted, s.folds.hash, s.fitRows, s.us, a);
    CrossFitIsWeighable(s.learner, s.folds, s.fitRows, Log(s.us, a));
    GroupsFixed(s.learner, wanted, s.folds.hash, s.fitRows, s.us, a, level, key);
    KeyHasGroup(pseudo, KeyOf(level), key);
    EstimateIsMean(t, Group(pseudo, KeyOf(level), key), level, key, bootstrap);
    LoggedGroup(s, t, level, key, a);
  }

  /**
   For every level and every group that has an eligible labelled unit, the raw estimate of the group
   has, over the randomization, exactly the group's true mean as expectation. The learner, the fold
   hash, external fitting rows and the resampling are arbitrary.
   */
  lemma EstimateUnbiased(t: Target, learner: Learner, wanted: int, hash: string -> nat, fitRows: Option<seq<Row>>,
        us: seq<Unit>, level: nat, key: string, bootstrap: Bootstrap)
    requires Keyed(us, level, key, UsableIndices(us)) != []
    requires forall k | k in Keyed(us, level, key, UsableIndices(us)) :: Positive(us[k])
    ensures var group := Keyed(us, level, key, UsableIndices(us));
            Expect(Propensities(us), EstimateStatistic(t, learner, wanted, hash, fitRows, us, level, key, bootstrap))
            == TruthTotal(t, us, group) / |group| as real
  {
    hide Expect, Combination, TotalOver, TruthTotal, Truth, MakeFolds, Order, Keyed, EstimateStatistic;
    hide Log, Eligible, UsableIndices;
    var el, none := UsableIndices(us), seq(|us|, k => false);
    var s := Study(learner, MakeFolds(wanted, hash, Eligible(Log(us, none))), fitRows, us);
    assert s.folds.hash == hash by { FoldsHash(wanted, hash, Eligible(Log(us, none))); }
    VisitedGroup(s, level, key);
    var group := Keyed(us, level, key, el);
    var visited := Keyed(us, level, key, Order(s));
    TotalUnbiased(s, t, visited);
    TruthTotalPermutes(t, us, visited, group);
    var ps, g := Propensities(us), TotalStatistic(s, t, visited);
    var f := EstimateStatistic(t, learner, wanted, hash, fitRows, us, level, key, bootstrap);
    var w := 1.0 / |group| as real;
    forall a: seq<bool> | |a| == |us| ensures f(a) == Combined(w, g, 0.0, g)(a) {
      FoldsFixed(wanted, hash, us, a, none);
      EstimateIsShare(t, s, wanted, a, level, key, bootstrap);
      Scale(g(a), |group|);
    }
    ExpectSame(ps, f, Combined(w, g, 0.0, g));
    ExpectLinear(ps, w, g, 0.0, g);
    Scale(Expect(ps, g), |group|);
  }

  lemma FoldsHash(wanted: int, hash: string -> nat, rows: seq<Row>)
    ensures MakeFolds(wanted, hash, rows).hash == hash
  {
  }
}
