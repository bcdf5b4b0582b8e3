/**
 The online admission policy: one decision per retrieval opportunity, charged against a
 per-episode risk budget that is never credited back.
 */
module Admission {
  import opened Wrappers
  import opened Quantiles
  import opened CapDraws

  // ------------------------------------------------------------------ entities

  datatype Opportunity = Opportunity(
    episodeId: string, opportunityId: string, taskId: string, knowledgeId: string,
    source: string, kind: string, taskGroup: string, failureType: string, riskTier: string,
    resourceScarcity: string, episodePhase: string, priorAdmissionBin: string,
    remainingOpportunities: int, eligible: bool)

  datatype Policy = Policy(
    epsAbs: real, epsInc: real, lam: real, alpha: real, delta: real,
    capEpsilon: real, futureClip: int, estimates: map<string, Estimate>)
  {
    /** What `numpy.quantile` and the two divisions of the CAP need of a loaded artifact. */
    predicate Valid() {
      0.0 <= alpha <= 1.0 && capEpsilon > 0.0
    }

    function Delta0(): (r: real)
      ensures r > 0.0
    {
      Max(delta, 0.000001)
    }
  }

  datatype Variant = Full | MyopicReserve | HardBackoff | IndependentMargins

  /** A frozen lookup may hold a value that does not convert to an integer (None here). */
  datatype Config = Config(
    policy: Policy, useLedger: bool, initialBudget: real,
    lookup: map<string, Option<int>>, variant: Variant)
  {
    predicate Valid() {
      policy.Valid() && initialBudget >= 0.0
    }
  }

  datatype Level = G0 | G1 | G2 | G3

  datatype Reason = Ineligible | AbsoluteRisk | BenefitTooLow | IncrementalRisk
                  | BudgetExhausted | CapNonPositive | Unsupported

  datatype Decision = Admit | Fallback(reason: Reason)

  /** `cap` is None where minus infinity is recorded; `support` is the level and key used. */
  datatype Certificate = Certificate(
    episodeId: string, opportunityId: string, candidateId: string, applicable: bool,
    remaining: nat, q: real, lam: real, cap: Option<real>, drawCount: nat,
    benefitLcb: real, riskAbsUcb: real, riskIncUcb: real, riskCharge: real,
    budgetBefore: real, budgetAfter: real, decision: Decision, support: Option<(Level, string)>)

  // ------------------------------------------------------------------ one decision as a function

  function Clip(value: int, top: int): nat {
    var v := if value <= top then value else top;
    if v >= 0 then v else 0
  }

  function Lookup(cfg: Config, o: Opportunity): Option<int> {
    if o.opportunityId in cfg.lookup then cfg.lookup[o.opportunityId]
    else if o.episodeId in cfg.lookup then cfg.lookup[o.episodeId]
    else if o.taskId in cfg.lookup then cfg.lookup[o.taskId]
    else Some(o.remainingOpportunities)
  }

  function Remaining(cfg: Config, o: Opportunity): nat {
    if cfg.variant.MyopicReserve? then 0
    else match Lookup(cfg, o)
      case Some(v) => Clip(v, cfg.policy.futureClip)
      case None => 0
  }

  function Share(budget: real, remaining: nat): real {
    budget / (1.0 + remaining as real)
  }

  /** The four context keys, most specific first. The g1 key omits the resource scarcity. */
  function Candidates(o: Opportunity): seq<(Level, string)> {
    var stem := o.source + "|" + o.kind;
    var group := stem + "|" + o.taskGroup;
    var risk := group + "|" + o.failureType + "|" + o.riskTier;
    [(G0, risk + "|" + o.resourceScarcity + "|" + o.episodePhase + "|" + o.priorAdmissionBin),
     (G1, risk + "|" + o.episodePhase),
     (G2, group + "|" + o.resourceScarcity),
     (G3, stem)]
  }

  predicate Usable(cfg: Config, c: (Level, string)) {
    && c.1 in cfg.policy.estimates
    && cfg.policy.estimates[c.1].supported
    && (cfg.variant.HardBackoff? ==> c.0 == G0)
  }

  /** The first usable context. It is a function of the policy and the opportunity alone. */
  function Chosen(cfg: Config, cands: seq<(Level, string)>): (r: Option<(Level, string)>)
    ensures r.Some? ==> r.value in cands && Usable(cfg, r.value)
    ensures r.None? ==> forall c | c in cands :: !Usable(cfg, c)
  {
    if cands == [] then None
    else if Usable(cfg, cands[0]) then Some(cands[0])
    else Chosen(cfg, cands[1..])
  }

  /** A point estimate moved down or up by lambda standard errors. */
  function Lower(x: real, lam: real, se: real): real { x - lam * se }

  function Upper(x: real, lam: real, se: real): real { x + lam * se }

  /** The margin scores of the ablation: point estimates widened by lambda standard errors. */
  function MarginScores(p: Policy, e: Estimate, q: real, drawCount: nat): CapStats
    requires p.Valid()
  {
    var lcb, incUcb := Lower(e.deltaY, p.lam, e.seY), Upper(e.riskInc, p.lam, e.seInc);
    CapStats(lcb / p.Delta0() - HarmPenalty(incUcb, p.lam, q, p.capEpsilon),
             lcb, incUcb, Upper(e.riskAbs, p.lam, e.seAbs), Max(0.0, incUcb), drawCount)
  }

  function DrawScores(p: Policy, e: Estimate, q: real): CapStats
    requires p.Valid()
  {
    CapScores(e, p.lam, q, p.Delta0(), p.capEpsilon, p.alpha)
  }

  /** The scores of an estimate at budget share `q`; one ablation replaces the draws by margins. */
  function Scores(cfg: Config, e: Estimate, q: real): CapStats
    requires cfg.Valid()
  {
    var s := DrawScores(cfg.policy, e, q);
    if cfg.variant.IndependentMargins? then MarginScores(cfg.policy, e, q, s.drawCount) else s
  }

  function Verdict(cfg: Config, s: CapStats, budget: real): Decision {
    var p := cfg.policy;
    if s.riskAbsUcb > p.epsAbs then Fallback(AbsoluteRisk)
    else if cfg.variant.IndependentMargins? && s.benefitLcb < p.Delta0() then Fallback(BenefitTooLow)
    else if cfg.variant.IndependentMargins? && s.riskIncUcb > p.epsInc then Fallback(IncrementalRisk)
    else if s.riskCharge > budget + p.capEpsilon then Fallback(BudgetExhausted)
    else if s.cap <= 0.0 then Fallback(CapNonPositive)
    else Admit
  }

  function BaseCertificate(cfg: Config, o: Opportunity, applicable: bool, budget: real, reason: Reason): Certificate {
    var n := Remaining(cfg, o);
    Certificate(o.episodeId, o.opportunityId, o.knowledgeId, applicable, n, Share(budget, n),
                cfg.policy.lam, None, 0, 0.0, 0.0, 0.0, 0.0, budget, budget, Fallback(reason), None)
  }

  function ScoredCertificate(cfg: Config, o: Opportunity, budget: real, c: (Level, string)): Certificate
    requires cfg.Valid() && c.1 in cfg.policy.estimates
  {
    var n := Remaining(cfg, o);
    var s := Scores(cfg, cfg.policy.estimates[c.1], Share(budget, n));
    var d := Verdict(cfg, s, budget);
    Certificate(o.episodeId, o.opportunityId, o.knowledgeId, true, n, Share(budget, n),
                cfg.policy.lam, Some(s.cap), s.drawCount, s.benefitLcb, s.riskAbsUcb, s.riskIncUcb,
                s.riskCharge, budget,
                if d.Admit? && cfg.useLedger then budget - s.riskCharge else budget, d, Some(c))
  }

  /** The certificate of one opportunity when the episode's stored budget is `budget`. */
  function Certify(cfg: Config, o: Opportunity, applicable: bool, budget: real): Certificate
    requires cfg.Valid()
  {
    if !o.eligible || !applicable then BaseCertificate(cfg, o, applicable, budget, Ineligible)
    else match Chosen(cfg, Candidates(o))
      case None => BaseCertificate(cfg, o, applicable, budget, Unsupported)
      case Some(c) => ScoredCertificate(cfg, o, budget, c)
  }

  /** The stored budget is clamped at zero although `budgetAfter` of the certificate is not. */
  function NextBudget(cfg: Config, c: Certificate): real {
    if c.decision.Admit? && cfg.useLedger then Max(0.0, c.budgetAfter) else c.budgetBefore
  }

  function BudgetOf(cfg: Config, m: map<string, real>, episode: string): real {
    if episode in m then m[episode] else cfg.initialBudget
  }

  // ------------------------------------------------------------------ the stateful policy

  class AdmissionPolicy {
    const cfg: Config
    var budgetByEpisode: map<string, real>

    constructor (policy: Policy, useLedger: bool, initialBudget: real,
                 lookup: map<string, Option<int>>, variant: Variant)
      ensures budgetByEpisode == map[]
      ensures cfg == Config(policy, useLedger, Max(0.0, initialBudget), lookup, variant)
    {
      cfg := Config(policy, useLedger, Max(0.0, initialBudget), lookup, variant);
      budgetByEpisode := map[];
    }

    /** The stored budget of an episode, entered at its initial value on first sight. */
    method BudgetBefore(episode: string) returns (b: real)
      modifies this`budgetByEpisode
      ensures b == BudgetOf(cfg, old(budgetByEpisode), episode)
      ensures budgetByEpisode == old(budgetByEpisode)[episode := b]
    {
      if episode !in budgetByEpisode {
        budgetByEpisode := budgetByEpisode[episode := cfg.initialBudget];
      }
      b := budgetByEpisode[episode];
    }

    method Decide(o: Opportunity, applicable: bool) returns (c: Certificate)
      requires cfg.Valid()
      modifies this`budgetByEpisode
      ensures c == Certify(cfg, o, applicable, BudgetOf(cfg, old(budgetByEpisode), o.episodeId))
      ensures budgetByEpisode == old(budgetByEpisode)[o.episodeId := NextBudget(cfg, c)]
    {
      hide Candidates, Remaining, Share, Scores, Verdict;
      var budget := BudgetBefore(o.episodeId);
      if !o.eligible || !applicable {
        return BaseCertificate(cfg, o, applicable, budget, Ineligible);
      }
      var n := Remaining(cfg, o);
      var q := Share(budget, n);
      var cands := Candidates(o);
      var i := 0;
      while i < |cands|
        invariant 0 <= i <= |cands|
        invariant Chosen(cfg, cands) == Chosen(cfg, cands[i..])
        invariant budgetByEpisode == old(budgetByEpisode)[o.episodeId := budget]
      {
        var (depth, key) := cands[i];
        if key in cfg.policy.estimates && cfg.policy.estimates[key].supported
           && !(cfg.variant.HardBackoff? && depth != G0) {
          assert Chosen(cfg, cands) == Some(cands[i]);
          var s := Scores(cfg, cfg.policy.estimates[key], q);
          var d := Verdict(cfg, s, budget);
          var after := if d.Admit? && cfg.useLedger then budget - s.riskCharge else budget;
          if d.Admit? && cfg.useLedger {
            budgetByEpisode := budgetByEpisode[o.episodeId := Max(0.0, after)];
          }
          return Certificate(o.episodeId, o.opportunityId, o.knowledgeId, true, n, q, cfg.policy.lam,
                             Some(s.cap), s.drawCount, s.benefitLcb, s.riskAbsUcb, s.riskIncUcb,
                             s.riskCharge, budget, after, d, Some((depth, key)));
        }
        assert cands[i..][1..] == cands[i + 1..];
        i := i + 1;
      }
      return BaseCertificate(cfg, o, applicable, budget, Unsupported);
    }
  }
}
