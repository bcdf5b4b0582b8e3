/**
 What the admission policy does with evidence: when benefit pays for harm, how worse evidence and a
 larger reserve for later opportunities change a decision, and where the reserve comes from.
 */
module AdmissionLaws {
  import opened Wrappers
  import opened Quantiles
  import opened CapDraws
  import opened Admission
  import opened AdmissionRuns

  // ------------------------------------------------------------------ when benefit pays for harm

  /** Benefit pays for harm at budget share q: no division in sight. */
  predicate Pays(y: real, h: real, lam: real, q: real, epsilon: real, scale: real) {
    y * Max(q + epsilon, epsilon) > lam * Max(h, 0.0) * scale
  }

  lemma QuotientsCompare(y: real, d: real, x: real, c: real)
    requires c > 0.0 && d > 0.0
    ensures y / d - x / c <= 0.0 <==> y * c <= x * d
  {
    var u, v := y / d, x / c;
    DivideBack(y, d);
    DivideBack(x, c);
    CompareScaled(u, v, d * c) by { assert d * c > 0.0; }
    assert u * (d * c) == (u * d) * c && v * (d * c) == (v * c) * d;
  }

  lemma DifferencePays(y: real, h: real, lam: real, q: real, epsilon: real, scale: real)
    requires epsilon > 0.0 && scale > 0.0
    ensures y / scale - HarmPenalty(h, lam, q, epsilon) > 0.0 <==> Pays(y, h, lam, q, epsilon, scale)
  {
    QuotientsCompare(y, scale, lam * Max(h, 0.0), Max(q + epsilon, epsilon));
  }

  lemma DrawPays(y: real, h: real, lam: real, q: real, delta0: real, epsilon: real)
    requires epsilon > 0.0
    ensures CapDraw(y, h, lam, q, delta0, epsilon) > 0.0 <==> Pays(y, h, lam, q, epsilon, Max(delta0, epsilon))
  {
    hide Pays, HarmPenalty;
    DifferencePays(y, h, lam, q, epsilon, Max(delta0, epsilon));
  }

  /** How many of the paired draws do not pay. */
  function Losing(ys: seq<real>, hs: seq<real>, lam: real, q: real, delta0: real, epsilon: real): nat
    requires |ys| == |hs|
  {
    if ys == [] then 0 else
      (if Pays(ys[0], hs[0], lam, q, epsilon, Max(delta0, epsilon)) then 0 else 1)
      + Losing(ys[1..], hs[1..], lam, q, delta0, epsilon)
  }

  lemma {:induction false} CountLosing(caps: seq<real>, ys: seq<real>, hs: seq<real>, lam: real, q: real,
        delta0: real, epsilon: real)
    requires |caps| == |ys| == |hs|
    requires forall i | 0 <= i < |caps| :: caps[i] > 0.0 <==> Pays(ys[i], hs[i], lam, q, epsilon, Max(delta0, epsilon))
    ensures CountAtMost(caps, 0.0) == Losing(ys, hs, lam, q, delta0, epsilon)
  {
    hide Pays;
    if caps != [] {
      CountLosing(caps[1..], ys[1..], hs[1..], lam, q, delta0, epsilon);
    }
  }

  /**
   The admission scalar is positive when few draws do not pay and not when many do not, counted
   against the rank alpha (n - 1) of the quantile, for any draws.
   */
  lemma CapByCounting(e: Estimate, lam: real, q: real, delta0: real, epsilon: real, alpha: real, k: nat)
    requires epsilon > 0.0 && 0.0 <= alpha <= 1.0 && k < |DrawArrays(e).deltaY|
    ensures var d := DrawArrays(e);
            var losing := Losing(d.deltaY, d.riskInc, lam, q, delta0, epsilon);
            var cap := CapScores(e, lam, q, delta0, epsilon, alpha).cap;
            && (k as real <= alpha * (|d.deltaY| - 1) as real && losing <= k ==> cap > 0.0)
            && (alpha * (|d.deltaY| - 1) as real <= k as real && losing > k ==> cap <= 0.0)
  {
    hide Pays, CapDraw, Quantile, DrawArrays;
    var d := DrawArrays(e);
    var caps := CapSeq(d, lam, q, delta0, epsilon);
    forall i | 0 <= i < |caps|
      ensures caps[i] > 0.0 <==> Pays(d.deltaY[i], d.riskInc[i], lam, q, epsilon, Max(delta0, epsilon))
    {
      DrawPays(d.deltaY[i], d.riskInc[i], lam, q, delta0, epsilon);
    }
    CountLosing(caps, d.deltaY, d.riskInc, lam, q, delta0, epsilon);
    QuantileByCounting(caps, alpha, 0.0, k);
  }

  /** Which ends the recorded bounds are at: benefit at the alpha end of its draws, both risks at the other. */
  lemma BoundsByCounting(e: Estimate, lam: real, q: real, delta0: real, epsilon: real, alpha: real, v: real, k: nat)
    requires epsilon > 0.0 && 0.0 <= alpha <= 1.0 && k < |DrawArrays(e).deltaY|
    ensures var d, s := DrawArrays(e), CapScores(e, lam, q, delta0, epsilon, alpha);
            var low, high := alpha * (|d.deltaY| - 1) as real, (1.0 - alpha) * (|d.deltaY| - 1) as real;
            && (k as real <= low && s.benefitLcb <= v ==> CountAtMost(d.deltaY, v) > k)
            && (low <= k as real && CountAtMost(d.deltaY, v) > k ==> s.benefitLcb <= v)
            && (k as real <= high && s.riskIncUcb <= v ==> CountAtMost(d.riskInc, v) > k)
            && (high <= k as real && CountAtMost(d.riskInc, v) > k ==> s.riskIncUcb <= v)
            && (k as real <= high && s.riskAbsUcb <= v ==> CountAtMost(d.riskAbs, v) > k)
            && (high <= k as real && CountAtMost(d.riskAbs, v) > k ==> s.riskAbsUcb <= v)
  {
    hide CapSeq, Quantile, DrawArrays, CountAtMost;
    var d := DrawArrays(e);
    QuantileByCounting(d.deltaY, alpha, v, k);
    QuantileByCounting(d.riskInc, 1.0 - alpha, v, k);
    QuantileByCounting(d.riskAbs, 1.0 - alpha, v, k);
  }

  /**
   Stored draws count as soon as each of the three arrays has 32 of them, and then only as far as all
   three reach; with fewer, only the generated ones count.
   */
  lemma DrawsUsed(e: Estimate, lam: real, q: real, delta0: real, epsilon: real, alpha: real, n: nat, other: PairedDraws)
    requires epsilon > 0.0 && 0.0 <= alpha <= 1.0
    requires |e.joint.deltaY| >= n && |e.joint.riskInc| >= n && |e.joint.riskAbs| >= n
    requires |e.joint.deltaY| == n || |e.joint.riskInc| == n || |e.joint.riskAbs| == n
    ensures var shared := JointDraws(e.joint.deltaY[..n], e.joint.riskInc[..n], e.joint.riskAbs[..n]);
            var used := if n >= 32 then e.(joint := shared, fallback := other) else e.(joint := JointDraws([], [], []));
            CapScores(used, lam, q, delta0, epsilon, alpha) == CapScores(e, lam, q, delta0, epsilon, alpha)
  {
    hide Quantile, CapSeq;
    var shared := JointDraws(e.joint.deltaY[..n], e.joint.riskInc[..n], e.joint.riskAbs[..n]);
    assert shared.deltaY[..n] == shared.deltaY && shared.riskInc[..n] == shared.riskInc;
    assert shared.riskAbs[..n] == shared.riskAbs;
  }

  /** All draws of an estimate, stored or generated, agree. */
  ghost predicate Constant(e: Estimate, y: real, h: real, a: real) {
    && (forall x | x in e.joint.deltaY || x in e.fallback.deltaY :: x == y)
    && (forall x | x in e.joint.riskInc || x in e.fallback.riskInc :: x == h)
    && (forall x | x in e.joint.riskAbs || x in e.fallback.riskAbs :: x == a)
  }

  lemma ConstantDraws(e: Estimate, y: real, h: real, a: real)
    requires Constant(e, y, h, a)
    ensures var d := DrawArrays(e);
            forall i | 0 <= i < |d.deltaY| :: d.deltaY[i] == y && d.riskInc[i] == h && d.riskAbs[i] == a
  {
    var d := DrawArrays(e);
    forall i | 0 <= i < |d.deltaY| ensures d.deltaY[i] == y && d.riskInc[i] == h && d.riskAbs[i] == a {
      assert d.deltaY[i] in e.joint.deltaY || d.deltaY[i] in e.fallback.deltaY;
      assert d.riskInc[i] in e.joint.riskInc || d.riskInc[i] in e.fallback.riskInc;
      assert d.riskAbs[i] in e.joint.riskAbs || d.riskAbs[i] in e.fallback.riskAbs;
    }
  }

  lemma ConstantCaps(d: PairedDraws, lam: real, q: real, delta0: real, epsilon: real, alpha: real, y: real, h: real)
    requires epsilon > 0.0 && 0.0 <= alpha <= 1.0
    requires forall i | 0 <= i < |d.deltaY| :: d.deltaY[i] == y && d.riskInc[i] == h
    ensures Quantile(CapSeq(d, lam, q, delta0, epsilon), alpha) > 0.0
            <==> Pays(y, h, lam, q, epsilon, Max(delta0, epsilon))
  {
    hide Pays, CapDraw, Quantile;
    QuantileConstant(CapSeq(d, lam, q, delta0, epsilon), alpha, CapDraw(y, h, lam, q, delta0, epsilon));
    DrawPays(y, h, lam, q, delta0, epsilon);
  }

  lemma ConstantScores(e: Estimate, lam: real, q: real, delta0: real, epsilon: real, alpha: real,
                       y: real, h: real, a: real)
    requires epsilon > 0.0 && 0.0 <= alpha <= 1.0 && Constant(e, y, h, a)
    ensures var s := CapScores(e, lam, q, delta0, epsilon, alpha);
            && s.benefitLcb == y && s.riskIncUcb == h && s.riskAbsUcb == a && s.riskCharge == Max(0.0, h)
            && (s.cap > 0.0 <==> Pays(y, h, lam, q, epsilon, Max(delta0, epsilon)))
  {
    hide Pays, CapSeq, Quantile, DrawArrays, Constant;
    ConstantDraws(e, y, h, a);
    var d := DrawArrays(e);
    ConstantCaps(d, lam, q, delta0, epsilon, alpha, y, h);
    QuantileConstant(d.deltaY, alpha, y);
    QuantileConstant(d.riskInc, 1.0 - alpha, h);
    QuantileConstant(d.riskAbs, 1.0 - alpha, a);
  }

  /** The budget is split evenly over this opportunity and the ones to come. */
  lemma EvenSplit(cfg: Config, o: Opportunity, applicable: bool, b: real)
    requires cfg.Valid()
    ensures var c := Certify(cfg, o, applicable, b);
            c.q * (1.0 + c.remaining as real) == b && c.remaining == Remaining(cfg, o)
  {
    hide Scores, Candidates, Remaining;
    DivideBack(b, 1.0 + Remaining(cfg, o) as real);
  }

  lemma ScoredParts(cfg: Config, o: Opportunity, b: real, c: (Level, string))
    requires cfg.Valid() && c.1 in cfg.policy.estimates
    ensures var q, x := Share(b, Remaining(cfg, o)), ScoredCertificate(cfg, o, b, c);
            var s := Scores(cfg, cfg.policy.estimates[c.1], q);
            && x.support == Some(c) && x.q == q && x.cap == Some(s.cap) && x.riskCharge == s.riskCharge
            && x.benefitLcb == s.benefitLcb && x.riskIncUcb == s.riskIncUcb && x.riskAbsUcb == s.riskAbsUcb
            && x.decision == Verdict(cfg, s, b)
  {
    hide Scores, Remaining, Share, Verdict;
  }

  /**
   The break-even law. On evidence without spread the policy admits exactly when the absolute risk is
   in bounds, the budget covers the incremental harm up to epsilon, and benefit times the reserved
   share, epsilon added, exceeds lambda times harm times the benefit scale.
   */
  lemma BreakEven(cfg: Config, o: Opportunity, b: real, c: (Level, string), y: real, h: real, a: real)
    requires cfg.Valid() && o.eligible && !cfg.variant.IndependentMargins?
    requires Chosen(cfg, Candidates(o)) == Some(c) && Constant(cfg.policy.estimates[c.1], y, h, a)
    ensures var p, cert := cfg.policy, Certify(cfg, o, true, b);
            && (cert.cap.Some? && (cert.cap.value > 0.0 <==>
                  Pays(y, h, p.lam, cert.q, p.capEpsilon, Max(Max(p.delta, 0.000001), p.capEpsilon))))
            && (cert.decision.Admit? <==>
                  && a <= p.epsAbs
                  && Max(h, 0.0) <= b + p.capEpsilon
                  && cert.cap.value > 0.0)
            && cert.benefitLcb == y && cert.riskIncUcb == h && cert.riskAbsUcb == a
            && cert.riskCharge == Max(h, 0.0)
  {
    var p, e, q := cfg.policy, cfg.policy.estimates[c.1], Share(b, Remaining(cfg, o));
    hide CapScores, Constant, Candidates, Remaining, Share, MarginScores, Pays, ScoredCertificate, Certify, Chosen;
    CertifyScored(cfg, o, b, c);
    ScoredParts(cfg, o, b, c);
    ConstantScores(e, p.lam, q, p.Delta0(), p.capEpsilon, p.alpha, y, h, a);
  }

  lemma CertifyScored(cfg: Config, o: Opportunity, b: real, c: (Level, string))
    requires cfg.Valid() && o.eligible && Chosen(cfg, Candidates(o)) == Some(c)
    ensures c.1 in cfg.policy.estimates && Certify(cfg, o, true, b) == ScoredCertificate(cfg, o, b, c)
  {
    hide Candidates, ScoredCertificate;
  }

  lemma MarginParts(p: Policy, e: Estimate, q: real, n: nat)
    requires p.Valid()
    ensures var y, h := Lower(e.deltaY, p.lam, e.seY), Upper(e.riskInc, p.lam, e.seInc);
            var s := MarginScores(p, e, q, n);
            && s.benefitLcb == y && s.riskIncUcb == h && s.riskCharge == Max(h, 0.0)
            && s.riskAbsUcb == Upper(e.riskAbs, p.lam, e.seAbs)
            && (s.cap > 0.0 <==> Pays(y, h, p.lam, q, p.capEpsilon, Max(p.delta, 0.000001)))
  {
    hide Lower, Upper, Pays, HarmPenalty;
    var y, h := Lower(e.deltaY, p.lam, e.seY), Upper(e.riskInc, p.lam, e.seInc);
    DifferencePays(y, h, p.lam, q, p.capEpsilon, p.Delta0());
  }

  /** The ablation decides by the same law on point estimates widened by lambda standard errors. */
  lemma MarginsBreakEven(cfg: Config, o: Opportunity, b: real, c: (Level, string))
    requires cfg.Valid() && o.eligible && cfg.variant.IndependentMargins?
    requires Chosen(cfg, Candidates(o)) == Some(c)
    ensures var p, cert := cfg.policy, Certify(cfg, o, true, b);
            var e, floor := p.estimates[c.1], Max(p.delta, 0.000001);
            var y, h := Lower(e.deltaY, p.lam, e.seY), Upper(e.riskInc, p.lam, e.seInc);
            cert.decision.Admit? <==>
              && Upper(e.riskAbs, p.lam, e.seAbs) <= p.epsAbs
              && y >= floor && h <= p.epsInc
              && Max(h, 0.0) <= b + p.capEpsilon
              && Pays(y, h, p.lam, cert.q, p.capEpsilon, floor)
  {
    var p, e, q := cfg.policy, cfg.policy.estimates[c.1], Share(b, Remaining(cfg, o));
    hide Candidates, Remaining, Share, Pays, Scores, MarginScores, Lower, Upper, ScoredCertificate, Certify, Chosen;
    hide Verdict, DrawScores, Policy.Delta0;
    CertifyScored(cfg, o, b, c);
    ScoredParts(cfg, o, b, c);
    ScoresAreMargins(cfg, e, q);
    MarginParts(p, e, q, DrawScores(p, e, q).drawCount);
    MarginVerdict(cfg, Scores(cfg, e, q), b);
  }

  lemma ScoresAreMargins(cfg: Config, e: Estimate, q: real)
    requires cfg.Valid() && cfg.variant.IndependentMargins?
    ensures Scores(cfg, e, q) == MarginScores(cfg.policy, e, q, DrawScores(cfg.policy, e, q).drawCount)
  {
    hide MarginScores, DrawScores;
  }

  lemma MarginVerdict(cfg: Config, s: CapStats, b: real)
    requires cfg.variant.IndependentMargins?
    ensures Verdict(cfg, s, b).Admit? <==>
              && s.riskAbsUcb <= cfg.policy.epsAbs && s.benefitLcb >= Max(cfg.policy.delta, 0.000001)
              && s.riskIncUcb <= cfg.policy.epsInc && s.riskCharge <= b + cfg.policy.capEpsilon && s.cap > 0.0
  {
  }

  /** Draws without positive harm cost nothing: the scalar is the benefit bound, whatever is reserved. */
  lemma ProtectionIsFree(e: Estimate, lam: real, q: real, delta0: real, epsilon: real, alpha: real)
    requires epsilon > 0.0 && 0.0 <= alpha <= 1.0
    requires forall x | x in DrawArrays(e).riskInc :: x <= 0.0
    ensures var s := CapScores(e, lam, q, delta0, epsilon, alpha);
            s.cap * Max(delta0, epsilon) == s.benefitLcb && s.riskCharge == 0.0
  {
    hide Quantile, DrawArrays, Sort, CountAtMost;
    var d, scale := DrawArrays(e), Max(delta0, epsilon);
    var caps := CapSeq(d, lam, q, delta0, epsilon);
    forall i | 0 <= i < |caps| ensures d.deltaY[i] == caps[i] * scale {
      assert d.riskInc[i] in d.riskInc;
      NothingToPay(d.deltaY[i], d.riskInc[i], lam, q, delta0, epsilon);
    }
    QuantileScaled(d.deltaY, caps, alpha, scale);
    forall i | 0 <= i < |d.riskInc| ensures d.riskInc[i] <= 0.0 {
      assert d.riskInc[i] in d.riskInc;
    }
    var zeros := seq(|d.riskInc|, i => 0.0);
    QuantileMonotone(d.riskInc, zeros, 1.0 - alpha);
    QuantileConstant(zeros, 1.0 - alpha, 0.0);
  }

  lemma NothingToPay(y: real, h: real, lam: real, q: real, delta0: real, epsilon: real)
    requires epsilon > 0.0 && h <= 0.0
    ensures CapDraw(y, h, lam, q, delta0, epsilon) * Max(delta0, epsilon) == y
  {
    assert lam * Max(h, 0.0) == 0.0;
    assert 0.0 / Max(q + epsilon, epsilon) == 0.0;
    DivideBack(y, Max(delta0, epsilon));
  }

  // ------------------------------------------------------------------ worse evidence

  /** Draw by draw and point by point no more benefit, no less harm, no less uncertainty. */
  ghost predicate Worse(e: Estimate, f: Estimate) {
    && f.supported == e.supported
    && WorseDraws(e.joint, f.joint) && WorseDraws(e.fallback, f.fallback)
    && f.deltaY <= e.deltaY && f.riskInc >= e.riskInc && f.riskAbs >= e.riskAbs
    && f.seY >= e.seY && f.seInc >= e.seInc && f.seAbs >= e.seAbs
  }

  ghost predicate WorseDraws(d: JointDraws, w: JointDraws) {
    Dominated(w.deltaY, d.deltaY) && Dominated(d.riskInc, w.riskInc) && Dominated(d.riskAbs, w.riskAbs)
  }

  ghost predicate WorseStats(s: CapStats, t: CapStats) {
    && t.cap <= s.cap && t.benefitLcb <= s.benefitLcb
    && t.riskIncUcb >= s.riskIncUcb && t.riskAbsUcb >= s.riskAbsUcb && t.riskCharge >= s.riskCharge
  }

  lemma WorseUsed(e: Estimate, f: Estimate)
    requires Worse(e, f)
    ensures WorseDraws(DrawArrays(e), DrawArrays(f))
  {
  }

  lemma PenaltyMonotoneInHarm(h: real, g: real, lam: real, q: real, epsilon: real)
    requires epsilon > 0.0 && lam >= 0.0 && h <= g
    ensures HarmPenalty(h, lam, q, epsilon) <= HarmPenalty(g, lam, q, epsilon)
  {
    var x, y := Max(h, 0.0), Max(g, 0.0);
    NonNegativeProduct(lam, y - x);
    assert lam * (y - x) == lam * y - lam * x;
    DivideMonotone(lam * x, lam * y, Max(q + epsilon, epsilon));
  }

  lemma CapDrawWorse(y: real, h: real, z: real, g: real, lam: real, q: real, delta0: real, epsilon: real)
    requires epsilon > 0.0 && lam >= 0.0 && z <= y && h <= g
    ensures CapDraw(z, g, lam, q, delta0, epsilon) <= CapDraw(y, h, lam, q, delta0, epsilon)
  {
    hide HarmPenalty;
    PenaltyMonotoneInHarm(h, g, lam, q, epsilon);
    DivideMonotone(z, y, Max(delta0, epsilon));
  }

  lemma DrawScoresWorse(e: Estimate, f: Estimate, lam: real, q: real, delta0: real, epsilon: real, alpha: real)
    requires epsilon > 0.0 && 0.0 <= alpha <= 1.0 && lam >= 0.0 && Worse(e, f)
    ensures WorseStats(CapScores(e, lam, q, delta0, epsilon, alpha), CapScores(f, lam, q, delta0, epsilon, alpha))
  {
    hide CapDraw, Quantile, DrawArrays, Worse;
    WorseUsed(e, f);
    var d, w := DrawArrays(e), DrawArrays(f);
    var s, t := CapSeq(w, lam, q, delta0, epsilon), CapSeq(d, lam, q, delta0, epsilon);
    forall i | 0 <= i < |s| ensures s[i] <= t[i] {
      CapDrawWorse(d.deltaY[i], d.riskInc[i], w.deltaY[i], w.riskInc[i], lam, q, delta0, epsilon);
    }
    QuantileMonotone(s, t, alpha);
    QuantileMonotone(w.deltaY, d.deltaY, alpha);
    QuantileMonotone(d.riskInc, w.riskInc, 1.0 - alpha);
    QuantileMonotone(d.riskAbs, w.riskAbs, 1.0 - alpha);
  }

  lemma BoundsWorse(x: real, y: real, lam: real, se: real, tse: real)
    requires lam >= 0.0 && se <= tse
    ensures x >= y ==> Lower(x, lam, se) >= Lower(y, lam, tse)
    ensures x <= y ==> Upper(x, lam, se) <= Upper(y, lam, tse)
  {
    NonNegativeProduct(lam, tse - se);
    assert lam * (tse - se) == lam * tse - lam * se;
  }

  lemma MarginScoresWorse(p: Policy, e: Estimate, f: Estimate, q: real, n: nat, m: nat)
    requires p.Valid() && p.lam >= 0.0 && Worse(e, f)
    ensures WorseStats(MarginScores(p, e, q, n), MarginScores(p, f, q, m))
  {
    hide HarmPenalty, Lower, Upper, Policy.Delta0;
    BoundsWorse(e.deltaY, f.deltaY, p.lam, e.seY, f.seY);
    BoundsWorse(e.riskInc, f.riskInc, p.lam, e.seInc, f.seInc);
    BoundsWorse(e.riskAbs, f.riskAbs, p.lam, e.seAbs, f.seAbs);
    var y, h := Lower(e.deltaY, p.lam, e.seY), Upper(e.riskInc, p.lam, e.seInc);
    var z, g := Lower(f.deltaY, p.lam, f.seY), Upper(f.riskInc, p.lam, f.seInc);
    PenaltyMonotoneInHarm(h, g, p.lam, q, p.capEpsilon);
    DivideMonotone(z, y, p.Delta0());
  }

  lemma ScoresWorse(cfg: Config, e: Estimate, f: Estimate, q: real)
    requires cfg.Valid() && cfg.policy.lam >= 0.0 && Worse(e, f)
    ensures WorseStats(Scores(cfg, e, q), Scores(cfg, f, q))
  {
    hide CapScores, MarginScores, Worse;
    var p := cfg.policy;
    DrawScoresWorse(e, f, p.lam, q, p.Delta0(), p.capEpsilon, p.alpha);
    MarginScoresWorse(p, e, f, q, DrawScores(p, e, q).drawCount, DrawScores(p, f, q).drawCount);
  }

  function WithEstimates(cfg: Config, m: map<string, Estimate>): Config {
    cfg.(policy := cfg.policy.(estimates := m))
  }

  ghost predicate WorseEverywhere(m: map<string, Estimate>, w: map<string, Estimate>) {
    m.Keys == w.Keys && forall k | k in m :: Worse(m[k], w[k])
  }

  lemma {:induction false} ChosenAsBefore(cfg: Config, w: map<string, Estimate>, cands: seq<(Level, string)>)
    requires WorseEverywhere(cfg.policy.estimates, w)
    ensures Chosen(WithEstimates(cfg, w), cands) == Chosen(cfg, cands)
  {
    if cands != [] { ChosenAsBefore(cfg, w, cands[1..]); }
  }

  lemma WorseAt(m: map<string, Estimate>, w: map<string, Estimate>, key: string)
    requires WorseEverywhere(m, w) && key in m
    ensures key in w && Worse(m[key], w[key])
  {
  }

  lemma WithTable(cfg: Config, w: map<string, Estimate>)
    requires cfg.Valid()
    ensures WithEstimates(cfg, w).policy.estimates == w && WithEstimates(cfg, w).Valid()
  {
  }

  /** The same share, at least the charge, at most the scalar, and no admission the other does not make. */
  predicate NoBetter(better: Certificate, worse: Certificate) {
    && worse.q == better.q && worse.riskCharge >= better.riskCharge
    && (worse.cap.Some? <==> better.cap.Some?) && (worse.cap.Some? ==> worse.cap.value <= better.cap.value)
    && (worse.decision.Admit? ==> better.decision.Admit?)
  }

  lemma WorseCertificate(cfg: Config, w: map<string, Estimate>, o: Opportunity, b: real, c: (Level, string))
    requires cfg.Valid() && cfg.policy.lam >= 0.0
    requires c.1 in cfg.policy.estimates && c.1 in w && Worse(cfg.policy.estimates[c.1], w[c.1])
    ensures WithEstimates(cfg, w).Valid() && WithEstimates(cfg, w).policy.estimates == w
    ensures NoBetter(ScoredCertificate(cfg, o, b, c), ScoredCertificate(WithEstimates(cfg, w), o, b, c))
  {
    hide Scores, Remaining, Share, Worse, Verdict, ScoredCertificate, WithEstimates, WorseStats;
    hide Config.Valid, Policy.Valid;
    var q := Share(b, Remaining(cfg, o));
    var e, f := cfg.policy.estimates[c.1], w[c.1];
    WithTable(cfg, w);
    SameSettings(cfg, w, o, f, q);
    ScoresWorse(cfg, e, f, q);
    var s, t := Scores(cfg, e, q), Scores(cfg, f, q);
    VerdictWorse(cfg, w, s, t, b);
    ScoredParts(cfg, o, b, c);
    ScoredParts(WithEstimates(cfg, w), o, b, c);
  }

  lemma VerdictWorse(cfg: Config, w: map<string, Estimate>, s: CapStats, t: CapStats, b: real)
    requires WorseStats(s, t)
    ensures Verdict(WithEstimates(cfg, w), t, b).Admit? ==> Verdict(cfg, s, b).Admit?
    ensures t.riskCharge >= s.riskCharge && t.cap <= s.cap
  {
  }

  lemma SameSettings(cfg: Config, w: map<string, Estimate>, o: Opportunity, f: Estimate, q: real)
    requires cfg.Valid()
    ensures Remaining(WithEstimates(cfg, w), o) == Remaining(cfg, o)
    ensures Scores(WithEstimates(cfg, w), f, q) == Scores(cfg, f, q)
  {
    hide CapScores, MarginScores;
    MarginsIgnoreTable(cfg.policy, w, f, q, DrawScores(cfg.policy, f, q).drawCount);
  }

  lemma MarginsIgnoreTable(p: Policy, w: map<string, Estimate>, f: Estimate, q: real, n: nat)
    requires p.Valid()
    ensures MarginScores(p.(estimates := w), f, q, n) == MarginScores(p, f, q, n)
  {
    hide HarmPenalty, Lower, Upper;
  }

  /** Worse evidence under any keys never turns a refusal into an admission, in any variant. */
  lemma WorseEvidenceAdmitsLess(cfg: Config, w: map<string, Estimate>, o: Opportunity, applicable: bool, b: real)
    requires cfg.Valid() && cfg.policy.lam >= 0.0 && WorseEverywhere(cfg.policy.estimates, w)
    ensures var better, worse := Certify(cfg, o, applicable, b), Certify(WithEstimates(cfg, w), o, applicable, b);
            worse.support == better.support && NoBetter(better, worse)
  {
    hide ScoredCertificate, BaseCertificate, Worse, Candidates, WorseEverywhere, NoBetter, Chosen, WithEstimates;
    ChosenAsBefore(cfg, w, Candidates(o));
    WithTable(cfg, w);
    Unscored(cfg, w, o, applicable, b, Ineligible);
    Unscored(cfg, w, o, applicable, b, Unsupported);
    match Chosen(cfg, Candidates(o))
    case None =>
    case Some(c) =>
      WorseAt(cfg.policy.estimates, w, c.1);
      WorseCertificate(cfg, w, o, b, c);
      ScoredParts(cfg, o, b, c);
      ScoredParts(WithEstimates(cfg, w), o, b, c);
  }

  lemma Unscored(cfg: Config, w: map<string, Estimate>, o: Opportunity, applicable: bool, b: real, reason: Reason)
    ensures var better := BaseCertificate(cfg, o, applicable, b, reason);
            var worse := BaseCertificate(WithEstimates(cfg, w), o, applicable, b, reason);
            worse.support == better.support && NoBetter(better, worse)
  {
  }

  // ------------------------------------------------------------------ the reserve

  /** With more opportunities to reserve for, a smaller share and no new admission. */
  lemma ReserveAdmitsLess(cfg: Config, o: Opportunity, cfg': Config, o': Opportunity, applicable: bool, b: real)
    requires cfg.Valid() && cfg.policy.lam >= 0.0 && b >= 0.0
    requires cfg' == cfg.(lookup := cfg'.lookup) && o.eligible == o'.eligible && Candidates(o) == Candidates(o')
    requires Remaining(cfg, o) <= Remaining(cfg', o')
    ensures var few, many := Certify(cfg, o, applicable, b), Certify(cfg', o', applicable, b);
            && many.q <= few.q && many.support == few.support && many.riskCharge == few.riskCharge
            && (many.decision.Admit? ==> few.decision.Admit?)
  {
    hide Scores, Candidates, Remaining;
    var n, m := Remaining(cfg, o), Remaining(cfg', o');
    DivideAntitone(b, 1.0 + n as real, 1.0 + m as real);
    SameChoice(cfg, cfg'.lookup, Candidates(o));
    match Chosen(cfg, Candidates(o))
    case None =>
    case Some(c) =>
      var e := cfg.policy.estimates[c.1];
      SameScores(cfg, cfg'.lookup, e, Share(b, m));
      ScoresMonotoneInBudget(cfg, e, Share(b, m), Share(b, n));
  }

  lemma {:induction false} SameChoice(cfg: Config, lookup: map<string, Option<int>>, cands: seq<(Level, string)>)
    ensures Chosen(cfg.(lookup := lookup), cands) == Chosen(cfg, cands)
  {
    if cands != [] { SameChoice(cfg, lookup, cands[1..]); }
  }

  lemma SameScores(cfg: Config, lookup: map<string, Option<int>>, e: Estimate, q: real)
    requires cfg.Valid()
    ensures Scores(cfg.(lookup := lookup), e, q) == Scores(cfg, e, q)
  {
    hide CapScores, MarginScores;
  }

  /** The keys of the frozen lookup that concern an opportunity, most specific first. */
  function LookupKeys(o: Opportunity): seq<string> {
    [o.opportunityId, o.episodeId, o.taskId]
  }

  /**
   How many opportunities a decision reserves for: the entry of the first of the three keys that the
   lookup holds, else the count the opportunity declares, clipped to [0, futureClip]; none where the
   entry is no number, and none in the myopic variant.
   */
  lemma ReserveCount(cfg: Config, o: Opportunity, applicable: bool, b: real, i: nat)
    requires cfg.Valid() && i <= 3
    requires forall j | 0 <= j < i :: LookupKeys(o)[j] !in cfg.lookup
    requires i < 3 ==> LookupKeys(o)[i] in cfg.lookup
    ensures var n := Certify(cfg, o, applicable, b).remaining;
            var v := if i < 3 then cfg.lookup[LookupKeys(o)[i]] else Some(o.remainingOpportunities);
            var top := cfg.policy.futureClip;
            if cfg.variant.MyopicReserve? || v.None? || v.value <= 0 || top <= 0 then n == 0
            else n == if v.value <= top then v.value else top
  {
    hide Scores, Candidates, Share;
    assert LookupKeys(o)[0] == o.opportunityId && LookupKeys(o)[1] == o.episodeId && LookupKeys(o)[2] == o.taskId;
  }
}
