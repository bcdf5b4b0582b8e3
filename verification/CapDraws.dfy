/**
 The unified admission scalar (CAP) of one estimate: paired draws of benefit, incremental
 harm and absolute harm are reduced to a lower quantile of

     benefit / delta0  -  lambda * max(harm, 0) / (q + epsilon)

 where `q` is the share of the episode budget reserved for the current opportunity.
 */
module CapDraws {
  import opened Quantiles

  /** Arrays share draw ids: index i of the three sequences belongs to one bootstrap draw. */
  datatype JointDraws = JointDraws(deltaY: seq<real>, riskInc: seq<real>, riskAbs: seq<real>)

  type PairedDraws = d: JointDraws | 0 < |d.deltaY| == |d.riskInc| == |d.riskAbs|
    witness JointDraws([0.0], [0.0], [0.0])

  /**
   One stored estimate. `joint` is what the artifact carries, possibly truncated or absent;
   `fallback` stands for the paired normal draws generated for a legacy point estimate.
   */
  datatype Estimate = Estimate(
    supported: bool,
    deltaY: real, seY: real,
    riskAbs: real, seAbs: real,
    riskInc: real, seInc: real,
    joint: JointDraws,
    fallback: PairedDraws)

  const MIN_JOINT_DRAWS := 32

  function Min(a: nat, b: nat): nat { if a <= b then a else b }

  function Max(a: real, b: real): real { if a >= b then a else b }

  function DrawArrays(e: Estimate): PairedDraws {
    var n := Min(|e.joint.deltaY|, Min(|e.joint.riskInc|, |e.joint.riskAbs|));
    if n >= MIN_JOINT_DRAWS then
      JointDraws(e.joint.deltaY[..n], e.joint.riskInc[..n], e.joint.riskAbs[..n])
    else
      e.fallback
  }

  datatype CapStats = CapStats(
    cap: real, benefitLcb: real, riskIncUcb: real, riskAbsUcb: real,
    riskCharge: real, drawCount: nat)

  function HarmPenalty(harm: real, lam: real, q: real, epsilon: real): real
    requires epsilon > 0.0
  {
    lam * Max(harm, 0.0) / Max(q + epsilon, epsilon)
  }

  function CapDraw(benefit: real, harm: real, lam: real, q: real, delta0: real, epsilon: real): real
    requires epsilon > 0.0
  {
    benefit / Max(delta0, epsilon) - HarmPenalty(harm, lam, q, epsilon)
  }

  function CapSeq(d: PairedDraws, lam: real, q: real, delta0: real, epsilon: real): (r: seq<real>)
    requires epsilon > 0.0
    ensures |r| == |d.deltaY|
  {
    seq(|d.deltaY|, i requires 0 <= i < |d.deltaY| =>
      CapDraw(d.deltaY[i], d.riskInc[i], lam, q, delta0, epsilon))
  }

  function CapScores(e: Estimate, lam: real, q: real, delta0: real, epsilon: real, alpha: real): (r: CapStats)
    requires epsilon > 0.0 && 0.0 <= alpha <= 1.0
    ensures r.riskCharge == Max(0.0, r.riskIncUcb)
    ensures r.drawCount > 0
  {
    var d := DrawArrays(e);
    var caps := CapSeq(d, lam, q, delta0, epsilon);
    var incUcb := Quantile(d.riskInc, 1.0 - alpha);
    CapStats(Quantile(caps, alpha), Quantile(d.deltaY, alpha), incUcb,
             Quantile(d.riskAbs, 1.0 - alpha), Max(0.0, incUcb), |caps|)
  }

  lemma DivideAntitone(x: real, c: real, d: real)
    requires x >= 0.0 && 0.0 < c <= d
    ensures x / d <= x / c
  {
    var u, v := x / c, x / d;
    assert u * c == x && v * d == x;
    NonNegativeProduct(v, d - c);
    assert (u - v) * c == v * (d - c);
  }

  lemma DivideMonotone(x: real, y: real, c: real)
    requires x <= y && 0.0 < c
    ensures x / c <= y / c
  {
    assert (y - x) / c >= 0.0;
    assert y / c == x / c + (y - x) / c;
  }

  /** A larger reserved budget share cannot raise the harm penalty of any draw. */
  lemma PenaltyAntitoneInBudget(harm: real, lam: real, q: real, r: real, epsilon: real)
    requires epsilon > 0.0 && lam >= 0.0 && q <= r
    ensures HarmPenalty(harm, lam, r, epsilon) <= HarmPenalty(harm, lam, q, epsilon)
  {
    NonNegativeProduct(lam, Max(harm, 0.0));
    DivideAntitone(lam * Max(harm, 0.0), Max(q + epsilon, epsilon), Max(r + epsilon, epsilon));
  }

  /** A larger conservatism parameter cannot lower the harm penalty of any draw. */
  lemma PenaltyMonotoneInLambda(harm: real, lam: real, mu: real, q: real, epsilon: real)
    requires epsilon > 0.0 && lam <= mu
    ensures HarmPenalty(harm, lam, q, epsilon) <= HarmPenalty(harm, mu, q, epsilon)
  {
    var h := Max(harm, 0.0);
    NonNegativeProduct(mu - lam, h);
    assert mu * h - lam * h == (mu - lam) * h;
    DivideMonotone(lam * h, mu * h, Max(q + epsilon, epsilon));
  }

  /** The CAP rises with the reserved budget; no other score looks at the budget. */
  lemma CapMonotoneInBudget(e: Estimate, lam: real, q: real, r: real, delta0: real, epsilon: real, alpha: real)
    requires epsilon > 0.0 && 0.0 <= alpha <= 1.0 && lam >= 0.0 && q <= r
    ensures CapScores(e, lam, q, delta0, epsilon, alpha).cap <= CapScores(e, lam, r, delta0, epsilon, alpha).cap
    ensures CapScores(e, lam, q, delta0, epsilon, alpha)
         == CapScores(e, lam, r, delta0, epsilon, alpha).(cap := CapScores(e, lam, q, delta0, epsilon, alpha).cap)
  {
    var d := DrawArrays(e);
    var s, t := CapSeq(d, lam, q, delta0, epsilon), CapSeq(d, lam, r, delta0, epsilon);
    forall i | 0 <= i < |s| ensures s[i] <= t[i] {
      PenaltyAntitoneInBudget(d.riskInc[i], lam, q, r, epsilon);
    }
    QuantileMonotone(s, t, alpha);
  }

  /** The CAP falls as the conservatism parameter grows; the risk bounds do not move. */
  lemma CapAntitoneInLambda(e: Estimate, lam: real, mu: real, q: real, delta0: real, epsilon: real, alpha: real)
    requires epsilon > 0.0 && 0.0 <= alpha <= 1.0 && lam <= mu
    ensures CapScores(e, mu, q, delta0, epsilon, alpha).cap <= CapScores(e, lam, q, delta0, epsilon, alpha).cap
    ensures CapScores(e, mu, q, delta0, epsilon, alpha).riskAbsUcb
         == CapScores(e, lam, q, delta0, epsilon, alpha).riskAbsUcb
  {
    var d := DrawArrays(e);
    var s, t := CapSeq(d, mu, q, delta0, epsilon), CapSeq(d, lam, q, delta0, epsilon);
    forall i | 0 <= i < |s| ensures s[i] <= t[i] {
      PenaltyMonotoneInLambda(d.riskInc[i], lam, mu, q, epsilon);
    }
    QuantileMonotone(s, t, alpha);
  }
}
