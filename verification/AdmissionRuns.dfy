/**
 Whole-run theorems about the admission policy: a run is any interleaving of opportunities
 of any episodes, folded with the one-decision function that `Admission.AdmissionPolicy.Decide`
 implements.
 */
module AdmissionRuns {
  import opened Wrappers
  import opened Quantiles
  import opened CapDraws
  import opened Admission

  datatype Event = Event(opportunity: Opportunity, applicable: bool)
  {
    function Episode(): string { opportunity.episodeId }
  }

  function StepCert(cfg: Config, m: map<string, real>, e: Event): Certificate
    requires cfg.Valid()
  {
    Certify(cfg, e.opportunity, e.applicable, BudgetOf(cfg, m, e.Episode()))
  }

  function StepBudgets(cfg: Config, m: map<string, real>, e: Event): map<string, real>
    requires cfg.Valid()
  {
    m[e.Episode() := NextBudget(cfg, StepCert(cfg, m, e))]
  }

  function RunCerts(cfg: Config, m: map<string, real>, es: seq<Event>): (r: seq<Certificate>)
    requires cfg.Valid()
    ensures |r| == |es|
    decreases es
  {
    if es == [] then [] else [StepCert(cfg, m, es[0])] + RunCerts(cfg, StepBudgets(cfg, m, es[0]), es[1..])
  }

  function RunBudgets(cfg: Config, m: map<string, real>, es: seq<Event>): map<string, real>
    requires cfg.Valid()
    decreases es
  {
    if es == [] then m else RunBudgets(cfg, StepBudgets(cfg, m, es[0]), es[1..])
  }

  // ------------------------------------------------------------------ what a certificate says

  /** The chosen context is the most specific usable one. */
  lemma {:induction false} ChosenIsFirst(cfg: Config, cands: seq<(Level, string)>) returns (i: nat)
    requires Chosen(cfg, cands).Some?
    ensures i < |cands| && cands[i] == Chosen(cfg, cands).value && Usable(cfg, cands[i])
    ensures forall j :: 0 <= j < i ==> !Usable(cfg, cands[j])
  {
    if Usable(cfg, cands[0]) {
      i := 0;
    } else {
      var k := ChosenIsFirst(cfg, cands[1..]);
      i := k + 1;
      forall j | 0 <= j < i ensures !Usable(cfg, cands[j]) {
        assert j == 0 || cands[j] == cands[1..][j - 1];
      }
    }
  }

  /** The recorded scores meet every condition of an admission under the recorded budget. */
  predicate Qualifies(cfg: Config, c: Certificate) {
    && c.riskAbsUcb <= cfg.policy.epsAbs
    && (cfg.variant.IndependentMargins? ==> c.benefitLcb >= cfg.policy.Delta0() && c.riskIncUcb <= cfg.policy.epsInc)
    && c.riskCharge <= c.budgetBefore + cfg.policy.capEpsilon
    && c.cap.Some? && c.cap.value > 0.0
  }

  /** A decision can be checked from what its certificate records, and each refusal names a failed condition. */
  lemma CertificateExplainsDecision(cfg: Config, o: Opportunity, applicable: bool, b: real)
    requires cfg.Valid()
    ensures var c := Certify(cfg, o, applicable, b);
            && (c.decision.Admit? <==> c.support.Some? && Qualifies(cfg, c))
            && (c.support.Some? <==> o.eligible && applicable && exists k | k in Candidates(o) :: Usable(cfg, k))
            && (c.decision == Fallback(Ineligible) <==> !o.eligible || !applicable)
            && (c.decision == Fallback(Unsupported) <==> o.eligible && applicable && c.support.None?)
            && (c.decision == Fallback(AbsoluteRisk) ==> c.riskAbsUcb > cfg.policy.epsAbs)
            && (c.decision == Fallback(BudgetExhausted) ==> c.riskCharge > b + cfg.policy.capEpsilon)
            && (c.decision == Fallback(CapNonPositive) ==> c.cap.Some? && c.cap.value <= 0.0)
            && (cfg.variant.HardBackoff? && c.support.Some? ==> c.support.value.0 == G0)
            && c.budgetBefore == b
            && c.budgetAfter == if c.decision.Admit? && cfg.useLedger then b - c.riskCharge else b
  {
    hide HarmPenalty, CapScores, Quantile, Policy.Delta0, MarginScores, Candidates;
  }

  // ------------------------------------------------------------------ ledger against pointwise

  function Pointwise(cfg: Config): Config {
    cfg.(useLedger := false)
  }

  lemma ShareMonotone(b: real, c: real, n: nat)
    requires b <= c
    ensures Share(b, n) <= Share(c, n)
  {
    DivideMonotone(b, c, 1.0 + n as real);
  }

  lemma DrawScoresMonotone(p: Policy, e: Estimate, q: real, r: real)
    requires p.Valid() && p.lam >= 0.0 && q <= r
    ensures DrawScores(p, e, q).cap <= DrawScores(p, e, r).cap
    ensures DrawScores(p, e, q) == DrawScores(p, e, r).(cap := DrawScores(p, e, q).cap)
  {
    CapMonotoneInBudget(e, p.lam, q, r, p.Delta0(), p.capEpsilon, p.alpha);
  }

  lemma MarginScoresMonotone(p: Policy, e: Estimate, q: real, r: real, n: nat)
    requires p.Valid() && p.lam >= 0.0 && q <= r
    ensures MarginScores(p, e, q, n).cap <= MarginScores(p, e, r, n).cap
    ensures MarginScores(p, e, q, n) == MarginScores(p, e, r, n).(cap := MarginScores(p, e, q, n).cap)
  {
    PenaltyAntitoneInBudget(Upper(e.riskInc, p.lam, e.seInc), p.lam, q, r, p.capEpsilon);
    hide Lower, Upper, HarmPenalty;
  }

  lemma ScoresMonotoneInBudget(cfg: Config, e: Estimate, q: real, r: real)
    requires cfg.Valid() && cfg.policy.lam >= 0.0 && q <= r
    ensures Scores(cfg, e, q).cap <= Scores(cfg, e, r).cap
    ensures Scores(cfg, e, q) == Scores(cfg, e, r).(cap := Scores(cfg, e, q).cap)
  {
    DrawScoresMonotone(cfg.policy, e, q, r);
    MarginScoresMonotone(cfg.policy, e, q, r, DrawScores(cfg.policy, e, q).drawCount);
  }

  lemma SamePointwise(cfg: Config, o: Opportunity, e: Estimate, q: real)
    requires cfg.Valid()
    ensures Remaining(Pointwise(cfg), o) == Remaining(cfg, o) && Scores(Pointwise(cfg), e, q) == Scores(cfg, e, q)
  {
    hide CapScores, MarginScores;
  }

  /** What is admitted under a budget is admitted, at the same context level, under a larger one. */
  lemma AdmitMonotoneInBudget(cfg: Config, o: Opportunity, applicable: bool, b: real, c: real)
    requires cfg.Valid() && cfg.policy.lam >= 0.0 && b <= c
    ensures var small, large := Certify(cfg, o, applicable, b), Certify(Pointwise(cfg), o, applicable, c);
            && small.support == large.support
            && small.riskCharge == large.riskCharge
            && (small.decision.Admit? ==> large.decision.Admit?)
  {
    hide Scores, Candidates, Remaining, Share, Policy.Delta0;
    if o.eligible && applicable {
      LevelIgnoresLedger(cfg, Candidates(o));
      match Chosen(cfg, Candidates(o))
      case None =>
      case Some(k) =>
        var n := Remaining(cfg, o);
        ShareMonotone(b, c, n);
        SamePointwise(cfg, o, cfg.policy.estimates[k.1], Share(c, n));
        ScoresMonotoneInBudget(cfg, cfg.policy.estimates[k.1], Share(b, n), Share(c, n));
    }
  }

  lemma {:induction false} LevelIgnoresLedger(cfg: Config, cands: seq<(Level, string)>)
    ensures Chosen(cfg, cands) == Chosen(Pointwise(cfg), cands)
  {
    if cands != [] {
      LevelIgnoresLedger(cfg, cands[1..]);
    }
  }

  ghost predicate WithinInitial(cfg: Config, m: map<string, real>) {
    forall ep :: 0.0 <= BudgetOf(cfg, m, ep) <= cfg.initialBudget
  }

  ghost predicate AtInitial(cfg: Config, m: map<string, real>) {
    forall ep :: BudgetOf(cfg, m, ep) == cfg.initialBudget
  }

  /** The accounting of a single decision, charge against what left the stored budget. */
  lemma OneCharge(cfg: Config, o: Opportunity, applicable: bool, b: real)
    requires cfg.Valid() && b >= 0.0
    ensures var c := Certify(cfg, o, applicable, b);
            var after := NextBudget(cfg, c);
            && c.episodeId == o.episodeId
            && c.budgetBefore == b
            && c.riskCharge >= 0.0
            && 0.0 <= after <= b
            && (!cfg.useLedger ==> after == b)
            && (cfg.useLedger ==> ChargeOf(c) == b - after + OvershootOf(c))
            && OvershootOf(c) <= cfg.policy.capEpsilon
            && (cfg.useLedger && Overshoots(c) ==> after == 0.0)
  {
    hide HarmPenalty, CapScores, Quantile, Policy.Delta0;
  }

  /** How a ledger certificate relates to the pointwise certificate of the same opportunity. */
  ghost predicate Covered(ledger: Certificate, pointwise: Certificate, initial: real) {
    && ledger.support == pointwise.support
    && ledger.riskCharge == pointwise.riskCharge
    && (ledger.decision.Admit? ==> pointwise.decision.Admit?)
    && 0.0 <= ledger.budgetBefore <= pointwise.budgetBefore == initial
  }

  ghost predicate AllCovered(ledger: seq<Certificate>, pointwise: seq<Certificate>, initial: real) {
    && |ledger| == |pointwise|
    && forall i | 0 <= i < |ledger| :: Covered(ledger[i], pointwise[i], initial)
  }

  lemma CoveredStep(cfg: Config, m: map<string, real>, p: map<string, real>, e: Event)
    requires cfg.Valid() && cfg.policy.lam >= 0.0
    requires WithinInitial(cfg, m) && AtInitial(cfg, p)
    ensures Covered(StepCert(cfg, m, e), StepCert(Pointwise(cfg), p, e), cfg.initialBudget)
    ensures WithinInitial(cfg, StepBudgets(cfg, m, e)) && AtInitial(cfg, StepBudgets(Pointwise(cfg), p, e))
  {
    hide Certify;
    var b, c := BudgetOf(cfg, m, e.Episode()), BudgetOf(cfg, p, e.Episode());
    AdmitMonotoneInBudget(cfg, e.opportunity, e.applicable, b, c);
    OneCharge(cfg, e.opportunity, e.applicable, b);
    OneCharge(Pointwise(cfg), e.opportunity, e.applicable, c);
    var m', p' := StepBudgets(cfg, m, e), StepBudgets(Pointwise(cfg), p, e);
    forall ep ensures 0.0 <= BudgetOf(cfg, m', ep) <= cfg.initialBudget && BudgetOf(cfg, p', ep) == cfg.initialBudget {
      assert BudgetOf(cfg, m, ep) <= cfg.initialBudget && BudgetOf(cfg, p, ep) == cfg.initialBudget;
    }
  }

  lemma {:induction false} LedgerWithinPointwiseFrom(cfg: Config, m: map<string, real>, p: map<string, real>,
        es: seq<Event>)
    requires cfg.Valid() && cfg.policy.lam >= 0.0
    requires WithinInitial(cfg, m) && AtInitial(cfg, p)
    ensures AllCovered(RunCerts(cfg, m, es), RunCerts(Pointwise(cfg), p, es), cfg.initialBudget)
    decreases es
  {
    hide WithinInitial, AtInitial, Covered, StepCert, StepBudgets;
    if es != [] {
      var e := es[0];
      CoveredStep(cfg, m, p, e);
      var m', p' := StepBudgets(cfg, m, e), StepBudgets(Pointwise(cfg), p, e);
      LedgerWithinPointwiseFrom(cfg, m', p', es[1..]);
      var ledger, pointwise := RunCerts(cfg, m', es[1..]), RunCerts(Pointwise(cfg), p', es[1..]);
      assert RunCerts(cfg, m, es) == [StepCert(cfg, m, e)] + ledger;
      assert RunCerts(Pointwise(cfg), p, es) == [StepCert(Pointwise(cfg), p, e)] + pointwise;
      assert AllCovered(ledger, pointwise, cfg.initialBudget);
    }
  }

  /**
   Over any stream of opportunities and for every variant, everything the ledger policy admits
   the pointwise policy admits too, on the same evidence, and the ledger never holds more than
   the initial budget.
   */
  lemma LedgerWithinPointwise(cfg: Config, es: seq<Event>)
    requires cfg.Valid() && cfg.policy.lam >= 0.0
    ensures AllCovered(RunCerts(cfg, map[], es), RunCerts(Pointwise(cfg), map[], es), cfg.initialBudget)
  {
    LedgerWithinPointwiseFrom(cfg, map[], map[], es);
  }

  // ------------------------------------------------------------------ budget accounting

  /** The certificates of one episode, in order. */
  function OfEpisode(cs: seq<Certificate>, ep: string): seq<Certificate> {
    if cs == [] then []
    else if cs[0].episodeId == ep then [cs[0]] + OfEpisode(cs[1..], ep)
    else OfEpisode(cs[1..], ep)
  }

  /** The risk a certificate commits the episode to. */
  function ChargeOf(c: Certificate): real {
    if c.decision.Admit? then c.riskCharge else 0.0
  }

  /** An admission whose charge exceeds the budget it was charged against. */
  predicate Overshoots(c: Certificate) {
    c.decision.Admit? && c.riskCharge > c.budgetBefore
  }

  function OvershootOf(c: Certificate): real {
    if Overshoots(c) then c.riskCharge - c.budgetBefore else 0.0
  }

  /** Total incremental risk the policy has agreed to bear. */
  function Charged(cs: seq<Certificate>): real {
    if cs == [] then 0.0 else ChargeOf(cs[0]) + Charged(cs[1..])
  }

  function OvershootSum(cs: seq<Certificate>): real {
    if cs == [] then 0.0 else OvershootOf(cs[0]) + OvershootSum(cs[1..])
  }

  function OvershootCount(cs: seq<Certificate>): nat {
    if cs == [] then 0 else (if Overshoots(cs[0]) then 1 else 0) + OvershootCount(cs[1..])
  }

  lemma {:induction false} OvershootBound(cs: seq<Certificate>, epsilon: real)
    requires forall c | c in cs :: OvershootOf(c) <= epsilon
    ensures 0.0 <= OvershootSum(cs) <= OvershootCount(cs) as real * epsilon
    ensures OvershootSum(cs) == 0.0 <==> OvershootCount(cs) == 0
    ensures OvershootCount(cs) == 0 <==> forall c | c in cs :: !Overshoots(c)
  {
    if cs != [] {
      OvershootBound(cs[1..], epsilon);
      assert cs == [cs[0]] + cs[1..];
      var n := OvershootCount(cs[1..]);
      assert (n + 1) as real * epsilon == n as real * epsilon + epsilon;
    }
  }

  ghost predicate Accounted(cs: seq<Certificate>, before: real, after: real, epsilon: real) {
    && 0.0 <= after <= before
    && Charged(cs) == before - after + OvershootSum(cs)
    && (OvershootCount(cs) > 0 ==> after == 0.0)
    && forall c | c in cs :: OvershootOf(c) <= epsilon
  }

  lemma {:induction false} AccountingFrom(cfg: Config, m: map<string, real>, es: seq<Event>, ep: string)
    requires cfg.Valid() && cfg.useLedger
    requires WithinInitial(cfg, m)
    ensures Accounted(OfEpisode(RunCerts(cfg, m, es), ep), BudgetOf(cfg, m, ep),
                      BudgetOf(cfg, RunBudgets(cfg, m, es), ep), cfg.policy.capEpsilon)
    decreases es
  {
    hide Certify;
    if es != [] {
      var e := es[0];
      var b := BudgetOf(cfg, m, e.Episode());
      OneCharge(cfg, e.opportunity, e.applicable, b);
      var c := StepCert(cfg, m, e);
      var m' := StepBudgets(cfg, m, e);
      forall x ensures 0.0 <= BudgetOf(cfg, m', x) <= cfg.initialBudget {
        assert 0.0 <= BudgetOf(cfg, m, x) <= cfg.initialBudget;
      }
      AccountingFrom(cfg, m', es[1..], ep);
      var tail := RunCerts(cfg, m', es[1..]);
      assert RunCerts(cfg, m, es)[1..] == tail;
      if e.Episode() == ep {
        var rest := OfEpisode(tail, ep);
        assert ([c] + rest)[1..] == rest;
      }
    }
  }

  /**
   Budget conservation of one episode inside any run: the stored budget stays between zero and
   its initial value, and the charges admitted are exactly what left the budget plus the
   overshoots, each of which is at most one epsilon.
   */
  lemma BudgetConservation(cfg: Config, es: seq<Event>, ep: string)
    requires cfg.Valid() && cfg.useLedger
    ensures var cs := OfEpisode(RunCerts(cfg, map[], es), ep);
            var stored := BudgetOf(cfg, RunBudgets(cfg, map[], es), ep);
            && 0.0 <= stored <= cfg.initialBudget
            && Charged(cs) == cfg.initialBudget - stored + OvershootSum(cs)
            && Charged(cs) <= cfg.initialBudget - stored + OvershootCount(cs) as real * cfg.policy.capEpsilon
            && (OvershootCount(cs) == 0 ==> Charged(cs) == cfg.initialBudget - stored)
  {
    hide RunCerts, RunBudgets, OfEpisode, Charged, OvershootSum, OvershootCount, OvershootOf;
    AccountingFrom(cfg, map[], es, ep);
    OvershootBound(OfEpisode(RunCerts(cfg, map[], es), ep), cfg.policy.capEpsilon);
  }

  /**
   An opportunity that is admitted at a charge above the standing budget: the guards of a decision,
   read off the policy, the opportunity and the budget. The admission test lets a charge pass when
   it exceeds the standing budget by up to epsilon.
   */
  predicate Tempts(cfg: Config, o: Opportunity, applicable: bool, b: real)
    requires cfg.Valid()
  {
    var chosen := Chosen(cfg, Candidates(o));
    && o.eligible && applicable && chosen.Some?
    && var s := Scores(cfg, cfg.policy.estimates[chosen.value.1], Share(b, Remaining(cfg, o)));
       && s.riskAbsUcb <= cfg.policy.epsAbs
       && (cfg.variant.IndependentMargins? ==> s.benefitLcb >= cfg.policy.Delta0() && s.riskIncUcb <= cfg.policy.epsInc)
       && s.cap > 0.0
       && b < s.riskCharge <= b + cfg.policy.capEpsilon
  }

  lemma OvershootGuard(cfg: Config, o: Opportunity, applicable: bool, b: real)
    requires cfg.Valid()
    ensures Overshoots(Certify(cfg, o, applicable, b)) <==> Tempts(cfg, o, applicable, b)
  {
    hide HarmPenalty, CapScores, Quantile, Policy.Delta0, MarginScores, Candidates;
  }

  /** The budget event i is decided against. */
  function Standing(cfg: Config, es: seq<Event>, i: nat): real
    requires cfg.Valid() && i < |es|
  {
    BudgetOf(cfg, RunBudgets(cfg, map[], es[..i]), es[i].Episode())
  }

  lemma {:induction false} CertificateAt(cfg: Config, m: map<string, real>, es: seq<Event>, i: nat)
    requires cfg.Valid() && i < |es|
    ensures RunCerts(cfg, m, es)[i] == StepCert(cfg, RunBudgets(cfg, m, es[..i]), es[i])
    decreases es
  {
    hide Certify;
    if i > 0 {
      CertificateAt(cfg, StepBudgets(cfg, m, es[0]), es[1..], i - 1);
      assert es[..i][1..] == es[1..][..i - 1] && es[..i][0] == es[0];
    }
  }

  lemma {:induction false} OfEpisodeMembers(cs: seq<Certificate>, ep: string)
    ensures forall c :: c in OfEpisode(cs, ep) <==> c in cs && c.episodeId == ep
  {
    if cs != [] {
      OfEpisodeMembers(cs[1..], ep);
      assert cs == [cs[0]] + cs[1..];
    }
  }

  /**
   An episode bears no more than its initial budget exactly when none of its opportunities tempts
   the budget standing when it comes up.
   */
  lemma WithinBudgetIff(cfg: Config, es: seq<Event>, ep: string)
    requires cfg.Valid() && cfg.useLedger
    ensures Charged(OfEpisode(RunCerts(cfg, map[], es), ep)) <= cfg.initialBudget
            <==> forall i | 0 <= i < |es| && es[i].Episode() == ep ::
                   !Tempts(cfg, es[i].opportunity, es[i].applicable, Standing(cfg, es, i))
  {
    hide RunCerts, RunBudgets, OfEpisode, Charged, OvershootSum, OvershootCount, OvershootOf, Overshoots, Tempts;
    hide Certify;
    var all := RunCerts(cfg, map[], es);
    var cs := OfEpisode(all, ep);
    AccountingFrom(cfg, map[], es, ep);
    OvershootBound(cs, cfg.policy.capEpsilon);
    OfEpisodeMembers(all, ep);
    forall i | 0 <= i < |es|
      ensures all[i].episodeId == es[i].Episode()
      ensures Overshoots(all[i]) <==> Tempts(cfg, es[i].opportunity, es[i].applicable, Standing(cfg, es, i))
    {
      CertificateAt(cfg, map[], es, i);
      CertifyNames(cfg, es[i].opportunity, es[i].applicable, Standing(cfg, es, i));
      OvershootGuard(cfg, es[i].opportunity, es[i].applicable, Standing(cfg, es, i));
    }
    WithinMeansNone(all, cs, es, ep);
  }

  lemma CertifyNames(cfg: Config, o: Opportunity, applicable: bool, b: real)
    requires cfg.Valid()
    ensures Certify(cfg, o, applicable, b).episodeId == o.episodeId
  {
  }

  lemma WithinMeansNone(all: seq<Certificate>, cs: seq<Certificate>, es: seq<Event>, ep: string)
    requires |all| == |es| && forall c :: c in cs <==> c in all && c.episodeId == ep
    requires forall i | 0 <= i < |es| :: all[i].episodeId == es[i].Episode()
    ensures (forall c | c in cs :: !Overshoots(c))
            <==> forall i | 0 <= i < |es| && es[i].Episode() == ep :: !Overshoots(all[i])
  {
    hide Overshoots;
    if forall i | 0 <= i < |es| && es[i].Episode() == ep :: !Overshoots(all[i]) {
      forall c | c in cs ensures !Overshoots(c) {
        var i :| 0 <= i < |all| && all[i] == c;
      }
    }
  }

  const SAMPLE := Opportunity("e", "o", "t", "k", "FAM", "skill", "mining", "none", "low",
                              "ordinary", "early", "0", 0, true)

  /** The draws generated for an estimate with no spread. */
  function Equal(x: real): (r: seq<real>)
    ensures |r| == 2000 && forall i :: 0 <= i < |r| ==> r[i] == x
  {
    seq(2000, i => x)
  }

  /** An estimate whose harm is half an epsilon above the default budget. */
  const HARMFUL := Estimate(true, 1.0, 0.0, 0.0, 0.0, 0.0500005, 0.0, JointDraws([], [], []),
                            JointDraws(Equal(1.0), Equal(0.0500005), Equal(0.0)))

  /** A policy with that estimate in the most specific context. */
  const TIGHT := Config(Policy(0.1, 0.02, 0.0, 0.05, 0.05, 0.000001, 6, map[Candidates(SAMPLE)[0].1 := HARMFUL]),
                        true, 0.05, map[], Full)

  lemma HarmfulScores()
    ensures var s := CapScores(HARMFUL, 0.0, 0.05, 0.05, 0.000001, 0.05);
            s.cap == 20.0 && s.riskCharge == 0.0500005 && s.riskAbsUcb == 0.0
  {
    hide Quantile, Equal;
    var d := DrawArrays(HARMFUL);
    var caps := CapSeq(d, 0.0, 0.05, 0.05, 0.000001);
    forall i | 0 <= i < |caps| ensures caps[i] == 20.0 {
      assert caps[i] == CapDraw(d.deltaY[i], d.riskInc[i], 0.0, 0.05, 0.05, 0.000001);
    }
    QuantileConstant(caps, 0.05, 20.0);
    QuantileConstant(d.riskInc, 0.95, 0.0500005);
    QuantileConstant(d.riskAbs, 0.95, 0.0);
  }

  lemma SampleTempts()
    ensures TIGHT.Valid() && Tempts(TIGHT, SAMPLE, true, 0.05)
  {
    hide CapScores, Candidates;
    HarmfulScores();
    assert Candidates(SAMPLE) != [] && Candidates(SAMPLE)[0].0 == G0 by { FirstCandidate(); }
    assert Chosen(TIGHT, Candidates(SAMPLE)) == Some(Candidates(SAMPLE)[0]);
    assert Share(0.05, Remaining(TIGHT, SAMPLE)) == 0.05;
  }

  lemma FirstCandidate()
    ensures Candidates(SAMPLE) != [] && Candidates(SAMPLE)[0].0 == G0
  {
  }

  /** One opportunity is enough to bear more risk than the whole budget. */
  lemma OneAdmissionCanOvershoot()
    ensures TIGHT.Valid()
    ensures Charged(OfEpisode(RunCerts(TIGHT, map[], [Event(SAMPLE, true)]), "e")) > TIGHT.initialBudget
  {
    hide Tempts, Charged, OfEpisode, RunCerts, Candidates;
    var es := [Event(SAMPLE, true)];
    SampleTempts();
    WithinBudgetIff(TIGHT, es, "e");
    assert es[..0] == [] && Standing(TIGHT, es, 0) == 0.05;
    assert es[0].Episode() == "e" && Tempts(TIGHT, es[0].opportunity, es[0].applicable, Standing(TIGHT, es, 0));
  }

  // ------------------------------------------------------------------ episode isolation

  function EventsOf(es: seq<Event>, ep: string): seq<Event> {
    if es == [] then []
    else if es[0].Episode() == ep then [es[0]] + EventsOf(es[1..], ep)
    else EventsOf(es[1..], ep)
  }

  lemma {:induction false} IsolationFrom(cfg: Config, m: map<string, real>, p: map<string, real>, es: seq<Event>,
        ep: string)
    requires cfg.Valid()
    requires BudgetOf(cfg, m, ep) == BudgetOf(cfg, p, ep)
    ensures OfEpisode(RunCerts(cfg, m, es), ep) == RunCerts(cfg, p, EventsOf(es, ep))
    ensures BudgetOf(cfg, RunBudgets(cfg, m, es), ep) == BudgetOf(cfg, RunBudgets(cfg, p, EventsOf(es, ep)), ep)
    decreases es
  {
    if es != [] {
      var e := es[0];
      var m' := StepBudgets(cfg, m, e);
      assert RunCerts(cfg, m, es)[1..] == RunCerts(cfg, m', es[1..]);
      assert StepCert(cfg, m, e).episodeId == e.Episode();
      if e.Episode() == ep {
        IsolationFrom(cfg, m', StepBudgets(cfg, p, e), es[1..], ep);
        assert EventsOf(es, ep)[1..] == EventsOf(es[1..], ep);
      } else {
        IsolationFrom(cfg, m', p, es[1..], ep);
      }
    }
  }

  /** An episode is decided as if it were the only one: interleaving with others changes nothing. */
  lemma EpisodeIsolation(cfg: Config, es: seq<Event>, ep: string)
    requires cfg.Valid()
    ensures OfEpisode(RunCerts(cfg, map[], es), ep) == RunCerts(cfg, map[], EventsOf(es, ep))
    ensures BudgetOf(cfg, RunBudgets(cfg, map[], es), ep)
         == BudgetOf(cfg, RunBudgets(cfg, map[], EventsOf(es, ep)), ep)
  {
    IsolationFrom(cfg, map[], map[], es, ep);
  }
}
