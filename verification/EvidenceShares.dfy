/**
 How much of its own evidence an estimate keeps, when it counts as supported, and what its effective
 sample size measures: laws of the estimates aggregation returns, in the numbers the design gives.
 */
module EvidenceShares {
  import opened Wrappers
  import opened CapDraws
  import opened Expectation
  import opened CrossFit
  import opened Evidence
  import opened EvidenceFlow

  // ------------------------------------------------------------------ the parent counts for 24

  /** `after` pools `own`, counted ess times, with `parent`, counted 24 times. */
  predicate Pooled(ess: real, own: real, parent: real, after: real) {
    (ess + 24.0) * after == ess * own + 24.0 * parent
  }

  lemma MixPools(ess: real, own: real, parent: real)
    requires ess >= 0.0
    ensures Pooled(ess, own, parent, Mix(Omega(ess), own, parent))
    ensures Omega(ess) == ess / (ess + 24.0)
  {
    var n := ess + 24.0;
    var w := ess / n;
    assert w * n == ess;
    ShareBelowOne(ess);
    assert n * (w * own + (1.0 - w) * parent) == (w * n) * own + (n - w * n) * parent;
  }

  lemma ShareBelowOne(ess: real)
    requires ess >= 0.0
    ensures 0.0 <= ess / (ess + 24.0) <= 1.0
  {
    var w := ess / (ess + 24.0);
    assert w * (ess + 24.0) == ess;
    assert 1.0 - w == 24.0 / (ess + 24.0);
  }

  /**
   An estimate blended by the pass is its own evidence, counted with its effective sample size, pooled
   with its parent's as that stands after the pass, counted as 24 rows: the three point estimates and,
   given 32 draws, each draw of the three arrays. An estimate without a parent stays as it is.
   */
  lemma ParentCountsForTwentyFour(vs: seq<GroupValue>, i: nat, b: nat)
    requires WellParented(vs) && i < |vs| && vs[i].ess >= 0.0 && FullDraws(vs, b)
    ensures Parent(vs, i).None? ==> Flowed(vs, i) == vs[i]
    ensures Parent(vs, i).Some? ==>
              var own, parent, after := vs[i], Flowed(vs, Parent(vs, i).value), Flowed(vs, i);
              && Pooled(own.ess, own.deltaY, parent.deltaY, after.deltaY)
              && Pooled(own.ess, own.riskInc, parent.riskInc, after.riskInc)
              && Pooled(own.ess, own.riskAbs, parent.riskAbs, after.riskAbs)
              && Times(after.weight, own.ess + 24.0) == own.ess
              && |own.draws.deltaY| == |parent.draws.deltaY| == |after.draws.deltaY| == b
              && (b >= 32 ==> forall k | 0 <= k < b ::
                    && Pooled(own.ess, own.draws.deltaY[k], parent.draws.deltaY[k], after.draws.deltaY[k])
                    && Pooled(own.ess, own.draws.riskInc[k], parent.draws.riskInc[k], after.draws.riskInc[k])
                    && Pooled(own.ess, own.draws.riskAbs[k], parent.draws.riskAbs[k], after.draws.riskAbs[k]))
  {
    FlowedStep(vs, i);
    if Parent(vs, i).Some? {
      Coarser(vs, i);
      FlowedDraws(vs, Parent(vs, i).value, b);
      assert |vs[i].draws.deltaY| == b;
      hide Flowed, WellParented, FullDraws;
      BlendPools(vs[i], Flowed(vs, Parent(vs, i).value), b);
    }
  }

  lemma BlendPools(own: GroupValue, parent: GroupValue, b: nat)
    requires own.ess >= 0.0 && |own.draws.deltaY| == |parent.draws.deltaY| == b
    ensures var after := Blend(own, parent);
            && Pooled(own.ess, own.deltaY, parent.deltaY, after.deltaY)
            && Pooled(own.ess, own.riskInc, parent.riskInc, after.riskInc)
            && Pooled(own.ess, own.riskAbs, parent.riskAbs, after.riskAbs)
            && Times(after.weight, own.ess + 24.0) == own.ess
            && |after.draws.deltaY| == b
            && (b >= 32 ==> forall k | 0 <= k < b ::
                  && Pooled(own.ess, own.draws.deltaY[k], parent.draws.deltaY[k], after.draws.deltaY[k])
                  && Pooled(own.ess, own.draws.riskInc[k], parent.draws.riskInc[k], after.draws.riskInc[k])
                  && Pooled(own.ess, own.draws.riskAbs[k], parent.draws.riskAbs[k], after.draws.riskAbs[k]))
  {
    WeightTimes(own.ess);
    hide Mix, Omega, Pooled, Times;
    MixPools(own.ess, own.deltaY, parent.deltaY);
    MixPools(own.ess, own.riskInc, parent.riskInc);
    MixPools(own.ess, own.riskAbs, parent.riskAbs);
    if b >= 32 {
      var after := Blend(own, parent);
      forall k | 0 <= k < b
        ensures Pooled(own.ess, own.draws.deltaY[k], parent.draws.deltaY[k], after.draws.deltaY[k])
        ensures Pooled(own.ess, own.draws.riskInc[k], parent.draws.riskInc[k], after.draws.riskInc[k])
        ensures Pooled(own.ess, own.draws.riskAbs[k], parent.draws.riskAbs[k], after.draws.riskAbs[k])
      {
        MixPools(own.ess, own.draws.deltaY[k], parent.draws.deltaY[k]);
        MixPools(own.ess, own.draws.riskInc[k], parent.draws.riskInc[k]);
        MixPools(own.ess, own.draws.riskAbs[k], parent.draws.riskAbs[k]);
      }
    }
  }

  lemma WeightTimes(ess: real)
    requires ess >= 0.0
    ensures Times(Omega(ess), ess + 24.0) == ess
  {
    MixPools(ess, 0.0, 0.0);
  }

  function Distance(x: real, y: real): real {
    if x >= y then x - y else y - x
  }

  /** With more effective rows behind the same figures, an estimate stays closer to its own, strictly so. */
  lemma MoreEvidenceKeepsMore(own: GroupValue, richer: GroupValue, parent: GroupValue)
    requires 0.0 <= own.ess < richer.ess && richer.deltaY == own.deltaY
    ensures var poor, rich := Blend(own, parent), Blend(richer, parent);
            && poor.weight < rich.weight
            && Distance(rich.deltaY, own.deltaY) <= Distance(poor.deltaY, own.deltaY)
            && (parent.deltaY != own.deltaY ==> Distance(rich.deltaY, own.deltaY) < Distance(poor.deltaY, own.deltaY))
  {
    hide BlendDraws, Omega, Mix;
    var v, w := Omega(own.ess), Omega(richer.ess);
    ShareGrows(own.ess, richer.ess);
    MixDistance(v, own.deltaY, parent.deltaY);
    MixDistance(w, own.deltaY, parent.deltaY);
    ProductGrows(1.0 - w, 1.0 - v, Distance(parent.deltaY, own.deltaY));
  }

  lemma ShareGrows(x: real, y: real)
    requires 0.0 <= x < y
    ensures 0.0 <= Omega(x) < Omega(y) <= 1.0
  {
    MixPools(x, 0.0, 0.0);
    MixPools(y, 0.0, 0.0);
    var v, w := x / (x + 24.0), y / (y + 24.0);
    assert 1.0 - v == 24.0 / (x + 24.0) && 1.0 - w == 24.0 / (y + 24.0);
    assert v * (x + 24.0) == x && w * (y + 24.0) == y;
    assert (w - v) * (x + 24.0) == y - x - w * (y - x);
    assert y - x - w * (y - x) == (1.0 - w) * (y - x);
    assert (1.0 - w) * (y - x) > 0.0;
    CompareFactors(v, w, x + 24.0);
  }

  lemma CompareFactors(v: real, w: real, c: real)
    requires c > 0.0 && (w - v) * c > 0.0
    ensures v < w
  {
    assert w - v == ((w - v) * c) / c;
  }

  lemma MixDistance(w: real, own: real, parent: real)
    requires 0.0 <= w <= 1.0
    ensures Distance(Mix(w, own, parent), own) == Times(1.0 - w, Distance(parent, own))
  {
    var d := parent - own;
    assert Mix(w, own, parent) - own == (1.0 - w) * d;
    if d >= 0.0 {
      assert (1.0 - w) * d >= 0.0;
    } else {
      assert (1.0 - w) * (-d) >= 0.0;
      assert (1.0 - w) * (-d) == -((1.0 - w) * d);
    }
  }

  lemma ProductGrows(v: real, w: real, d: real)
    requires 0.0 <= v < w && d >= 0.0
    ensures Times(v, d) <= Times(w, d)
    ensures d > 0.0 ==> Times(v, d) < Times(w, d)
  {
    assert w * d - v * d == (w - v) * d;
    if d > 0.0 {
      assert (w - v) * d > 0.0;
    }
  }

  // ------------------------------------------------------------------ when an estimate is supported

  predicate InArm(r: PseudoRow, level: nat, key: string, treated: bool) {
    KeyAt(level, r.context) == key && r.treated == treated
  }

  /** The positions of the rows of one group in one arm. */
  function Arm(pseudo: seq<PseudoRow>, level: nat, key: string, treated: bool): set<nat> {
    set i | 0 <= i < |pseudo| && InArm(pseudo[i], level, key, treated)
  }

  lemma ArmOneMore(pseudo: seq<PseudoRow>, r: PseudoRow, level: nat, key: string, treated: bool)
    ensures |Arm(pseudo + [r], level, key, treated)|
            == |Arm(pseudo, level, key, treated)| + if InArm(r, level, key, treated) then 1 else 0
  {
    hide InArm;
    var n, before, after := |pseudo|, Arm(pseudo, level, key, treated), Arm(pseudo + [r], level, key, treated);
    assert n !in before;
    assert forall i | 0 <= i < n :: (pseudo + [r])[i] == pseudo[i];
    assert (pseudo + [r])[n] == r;
    if InArm(r, level, key, treated) {
      assert after == before + {n};
    } else {
      assert after == before;
    }
  }

  lemma TreatedOneMore(rows: seq<PseudoRow>, r: PseudoRow)
    ensures Treated(rows + [r]) == Treated(rows) + if r.treated then 1 else 0
  {
    assert (rows + [r])[..|rows|] == rows;
  }

  lemma {:induction false} ArmsOfGroup(pseudo: seq<PseudoRow>, level: nat, key: string)
    ensures var rows := Group(pseudo, KeyOf(level), key);
            && Treated(rows) == |Arm(pseudo, level, key, true)|
            && |rows| - Treated(rows) == |Arm(pseudo, level, key, false)|
  {
    if pseudo != [] {
      var init, r := pseudo[..|pseudo| - 1], pseudo[|pseudo| - 1];
      assert pseudo == init + [r];
      ArmsOfGroup(init, level, key);
      ArmOneMore(init, r, level, key, true);
      ArmOneMore(init, r, level, key, false);
      hide KeyAt, Arm, Treated;
      TreatedOneMore(Group(init, KeyOf(level), key), r);
      if KeyAt(level, r.context) != key {
        assert Group(pseudo, KeyOf(level), key) == Group(init, KeyOf(level), key);
      }
    }
  }

  /**
   The raw estimate of a group counts the rows of either arm under its key, and is supported exactly
   when each arm has twelve and the effective sample size is at least 24.
   */
  lemma SupportedIff(pseudo: seq<PseudoRow>, level: nat, k: nat, bootstrap: Bootstrap)
    requires Weighable(pseudo) && k < |LevelValues(pseudo, level, bootstrap)|
    ensures var v := LevelValues(pseudo, level, bootstrap)[k];
            var reuse, base := Arm(pseudo, level, v.key, true), Arm(pseudo, level, v.key, false);
            && v.nReuse == |reuse| && v.nBase == |base| && v.n == |reuse| + |base|
            && (v.supported <==> |reuse| >= 12 && |base| >= 12 && v.ess >= 24.0)
  {
    hide KeyOf, Keys, Group, Ess, Arm, KeyAt;
    var key := Keys(pseudo, KeyOf(level))[k];
    KeyHasGroup(pseudo, KeyOf(level), key);
    ArmsOfGroup(pseudo, level, key);
  }

  function Squares(ws: seq<real>): (r: seq<real>)
    ensures |r| == |ws|
    ensures forall k | 0 <= k < |ws| :: r[k] == Times(ws[k], ws[k])
  {
    seq(|ws|, k requires 0 <= k < |ws| => Times(ws[k], ws[k]))
  }

  /** Each weight is the inverse of the probability of the arm its row was in. */
  predicate Inverse(rows: seq<PseudoRow>, ws: seq<real>) {
    |ws| == |rows| && forall k | 0 <= k < |rows| ::
      Times(ws[k], if rows[k].treated then rows[k].propensity else 1.0 - rows[k].propensity) == 1.0
  }

  /** The effective sample size is the squared sum of the inverse weights over the sum of their squares. */
  lemma EssByWeights(rows: seq<PseudoRow>, ws: seq<real>)
    requires Weighable(rows) && rows != [] && Inverse(rows, ws)
    ensures Times(Ess(rows), Sum(Squares(ws))) == Times(Sum(ws), Sum(ws))
  {
    SumsOfWeights(rows, ws);
    CauchySchwarz(rows);
    hide WeightSum, SquareSum, Sum;
    QuotientTimes(Times(WeightSum(rows), WeightSum(rows)), SquareSum(rows));
  }

  lemma QuotientTimes(x: real, q: real)
    requires q > 0.0
    ensures Times(x / q, q) == x
  {
  }

  lemma {:induction false} SumsOfWeights(rows: seq<PseudoRow>, ws: seq<real>)
    requires Weighable(rows) && Inverse(rows, ws)
    ensures Sum(ws) == WeightSum(rows) && Sum(Squares(ws)) == SquareSum(rows)
  {
    if rows != [] {
      var n := |rows| - 1;
      SumsOfWeights(rows[..n], ws[..n]);
      InverseIsWeight(rows[n], ws[n]);
      hide IpwWeight, Times, Inverse;
      SumLast(ws);
      SumLast(Squares(ws));
      assert Squares(ws)[..n] == Squares(ws[..n]);
    }
  }

  lemma InverseIsWeight(r: PseudoRow, w: real)
    requires 0.0 < r.propensity < 1.0
    requires Times(w, if r.treated then r.propensity else 1.0 - r.propensity) == 1.0
    ensures IpwWeight(r) == w
  {
    var e := if r.treated then r.propensity else 1.0 - r.propensity;
    assert w == (w * e) / e;
  }

  lemma {:induction false} SumLast(s: seq<real>)
    requires s != []
    ensures Sum(s) == Sum(s[..|s| - 1]) + s[|s| - 1]
  {
    if |s| > 1 {
      SumLast(s[1..]);
      assert s[1..][..|s| - 2] == s[..|s| - 1][1..];
    } else {
      assert s[1..] == [] && s[..0] == [];
    }
  }

  /** Equally weighted rows are all effective. */
  lemma EssOfEqualWeights(rows: seq<PseudoRow>, w: real)
    requires Weighable(rows) && rows != []
    requires forall k | 0 <= k < |rows| :: IpwWeight(rows[k]) == w
    ensures Ess(rows) == |rows| as real
  {
    hide IpwWeight;
    EqualSums(rows, w);
    CauchySchwarz(rows);
    hide WeightSum, SquareSum;
    SquareOfSum(|rows| as real, w);
    var n, q := |rows| as real, SquareSum(rows);
    assert Ess(rows) == Times(n, q) / q;
    QuotientOfProduct(n, q);
  }

  lemma QuotientOfProduct(n: real, q: real)
    requires q > 0.0
    ensures Times(n, q) / q == n
  {
  }

  lemma SquareOfSum(n: real, w: real)
    ensures Times(n * w, n * w) == Times(n, n * Times(w, w))
  {
    assert (n * w) * (n * w) == n * (n * (w * w));
  }

  lemma {:induction false} EqualSums(rows: seq<PseudoRow>, w: real)
    requires Weighable(rows) && forall k | 0 <= k < |rows| :: IpwWeight(rows[k]) == w
    ensures WeightSum(rows) == |rows| as real * w
    ensures SquareSum(rows) == |rows| as real * Times(w, w)
  {
    hide IpwWeight, Times;
    if rows != [] {
      var n := |rows| - 1;
      EqualSums(rows[..n], w);
      assert (n + 1) as real * w == n as real * w + w;
      assert (n + 1) as real * Times(w, w) == n as real * Times(w, w) + Times(w, w);
    }
  }
}
