/**
 Offline selection of the conservatism parameter on one data split, the sealed audit on
 another, and what the selected artifact means for the online policy.
 */
module Calibrator {
  import opened Wrappers
  import opened Quantiles
  import opened CapDraws
  import Admission

  const DEFAULT_BUDGET := 0.05
  const DEFAULT_CAP_EPSILON := 0.000001

  datatype GroupEstimate = GroupEstimate(key: string, row: Estimate)

  datatype Settings = Settings(lambdas: seq<real>, delta: real, epsAbs: real, epsInc: real, alpha: real)
  {
    predicate Valid() {
      0.0 <= alpha <= 1.0
    }
  }

  datatype CalibratedPolicy = CalibratedPolicy(
    lam: real, delta: real, epsAbs: real, epsInc: real, alpha: real,
    estimates: map<string, Estimate>, coverage: real, supported: bool, auditPassed: bool)
  {
    function Delta0(): real { Max(delta, DEFAULT_CAP_EPSILON) }
  }

  function Supported(es: seq<GroupEstimate>): seq<GroupEstimate> {
    if es == [] then [] else
      var last := es[|es| - 1];
      Supported(es[..|es| - 1]) + if last.row.supported then [last] else []
  }

  /** The two conditions an estimate must meet at the frozen budget. */
  predicate Admissible(st: Settings, e: Estimate, lam: real)
    requires st.Valid()
  {
    var s := CapScores(e, lam, DEFAULT_BUDGET, st.delta, DEFAULT_CAP_EPSILON, st.alpha);
    s.riskAbsUcb <= st.epsAbs && s.cap > 0.0
  }

  function Admitted(st: Settings, es: seq<GroupEstimate>, lam: real): seq<GroupEstimate>
    requires st.Valid()
  {
    if es == [] then [] else
      var last := es[|es| - 1];
      Admitted(st, es[..|es| - 1], lam) + if last.row.supported && Admissible(st, last.row, lam) then [last] else []
  }

  /** A dictionary keeps the last entry written under a key. */
  function ByKey(es: seq<GroupEstimate>): map<string, Estimate> {
    if es == [] then map[]
    else ByKey(es[..|es| - 1])[es[|es| - 1].key := es[|es| - 1].row]
  }

  // ------------------------------------------------------------------ nesting over lambda

  lemma AdmissibleAntitone(st: Settings, e: Estimate, lam: real, mu: real)
    requires st.Valid() && lam <= mu
    ensures Admissible(st, e, mu) ==> Admissible(st, e, lam)
  {
    CapAntitoneInLambda(e, lam, mu, DEFAULT_BUDGET, st.delta, DEFAULT_CAP_EPSILON, st.alpha);
  }

  /** Admitted sets are nested: a more conservative parameter keeps a subset. */
  lemma {:induction false} AdmittedNested(st: Settings, es: seq<GroupEstimate>, lam: real, mu: real)
    requires st.Valid() && lam <= mu
    ensures forall e | e in Admitted(st, es, mu) :: e in Admitted(st, es, lam)
    ensures |Admitted(st, es, mu)| <= |Admitted(st, es, lam)| <= |Supported(es)|
  {
    hide Admissible;
    if es != [] {
      AdmissibleAntitone(st, es[|es| - 1].row, lam, mu);
      AdmittedNested(st, es[..|es| - 1], lam, mu);
    }
  }

  function Coverage(st: Settings, es: seq<GroupEstimate>, lam: real): real
    requires st.Valid() && Supported(es) != []
  {
    |Admitted(st, es, lam)| as real / |Supported(es)| as real
  }

  lemma CoverageAntitone(st: Settings, es: seq<GroupEstimate>, lam: real, mu: real)
    requires st.Valid() && Supported(es) != [] && lam <= mu
    ensures Coverage(st, es, mu) <= Coverage(st, es, lam)
  {
    hide Admitted;
    AdmittedNested(st, es, lam, mu);
    DivideMonotone(|Admitted(st, es, mu)| as real, |Admitted(st, es, lam)| as real, |Supported(es)| as real);
  }

  function PolicyAt(st: Settings, es: seq<GroupEstimate>, lam: real): CalibratedPolicy
    requires st.Valid() && Supported(es) != []
  {
    CalibratedPolicy(lam, st.delta, st.epsAbs, st.epsInc, st.alpha, ByKey(Admitted(st, es, lam)),
                     Coverage(st, es, lam), true, false)
  }

  ghost predicate IsMin(x: real, s: seq<real>) {
    x in s && forall y | y in s :: x <= y
  }

  ghost predicate IsMax(x: real, s: seq<real>) {
    x in s && forall y | y in s :: y <= x
  }

  method MaxOf(s: seq<real>) returns (m: real)
    requires s != []
    ensures IsMax(m, s)
  {
    m := s[0];
    for i := 1 to |s|
      invariant m in s
      invariant forall j | 0 <= j < i :: s[j] <= m
    {
      if s[i] > m { m := s[i]; }
    }
  }

  /** The supported estimates, and those admitted at `lambda`. */
  method Candidate(st: Settings, es: seq<GroupEstimate>, lam: real)
    returns (supported: seq<GroupEstimate>, admitted: seq<GroupEstimate>)
    requires st.Valid()
    ensures supported == Supported(es)
    ensures admitted == Admitted(st, es, lam)
  {
    supported, admitted := [], [];
    for i := 0 to |es|
      invariant supported == Supported(es[..i])
      invariant admitted == Admitted(st, es[..i], lam)
    {
      assert es[..i + 1][..i] == es[..i];
      if es[i].row.supported {
        supported := supported + [es[i]];
        if Admissible(st, es[i].row, lam) { admitted := admitted + [es[i]]; }
      }
    }
    assert es[..|es|] == es;
  }

  /**
   The grid search. Whatever the order of the grid, it returns the artifact of the least
   conservative parameter; with no supported estimate it returns the most conservative one with
   nothing admitted, marked supported as soon as there was any estimate at all.
   */
  method Select(st: Settings, es: seq<GroupEstimate>) returns (r: CalibratedPolicy)
    requires st.Valid() && st.lambdas != []
    ensures Supported(es) != [] ==> IsMin(r.lam, st.lambdas) && r == PolicyAt(st, es, r.lam)
    ensures Supported(es) == [] ==>
              && IsMax(r.lam, st.lambdas)
              && r == CalibratedPolicy(r.lam, st.delta, st.epsAbs, st.epsInc, st.alpha, map[], 0.0, es != [], false)
  {
    hide Admissible, Admitted, Supported, ByKey;
    var best: Option<CalibratedPolicy> := None;
    for i := 0 to |st.lambdas|
      invariant Supported(es) == [] || i == 0 ==> best == None
      invariant Supported(es) != [] && i > 0 ==> best.Some?
      invariant best.Some? ==> best.value == PolicyAt(st, es, best.value.lam)
      invariant best.Some? ==> IsMin(best.value.lam, st.lambdas[..i])
    {
      var lam := st.lambdas[i];
      assert st.lambdas[..i + 1] == st.lambdas[..i] + [lam];
      var supported, admitted := Candidate(st, es, lam);
      if supported != [] {
        var candidate := CalibratedPolicy(lam, st.delta, st.epsAbs, st.epsInc, st.alpha, ByKey(admitted),
                                          |admitted| as real / |supported| as real, true, false);
        if best.Some? {
          if lam <= best.value.lam {
            CoverageAntitone(st, es, lam, best.value.lam);
          } else {
            CoverageAntitone(st, es, best.value.lam, lam);
          }
        }
        if best.None? || candidate.coverage > best.value.coverage
           || (candidate.coverage == best.value.coverage && lam < best.value.lam) {
          best := Some(candidate);
        }
      }
    }
    assert st.lambdas[..|st.lambdas|] == st.lambdas;
    if best.Some? {
      r := best.value;
    } else {
      var top := MaxOf(st.lambdas);
      r := CalibratedPolicy(top, st.delta, st.epsAbs, st.epsInc, st.alpha, map[], 0.0, es != [], false);
    }
  }

  // ------------------------------------------------------------------ audit

  /** The estimates the audit looks keys up in: the last supported one under each key. */
  function AuditTable(es: seq<GroupEstimate>): map<string, Estimate> {
    ByKey(Supported(es))
  }

  predicate PassesAudit(p: CalibratedPolicy, e: Estimate)
    requires 0.0 <= p.alpha <= 1.0
  {
    var s := CapScores(e, p.lam, DEFAULT_BUDGET, p.Delta0(), DEFAULT_CAP_EPSILON, p.alpha);
    s.riskAbsUcb <= p.epsAbs && s.cap > 0.0
  }

  function Audit(p: CalibratedPolicy, es: seq<GroupEstimate>): CalibratedPolicy
    requires 0.0 <= p.alpha <= 1.0
  {
    var table := AuditTable(es);
    p.(auditPassed := p.supported && p.estimates != map[]
                      && forall k | k in p.estimates :: k in table && PassesAudit(p, table[k]))
  }

  ghost predicate DistinctKeys(es: seq<GroupEstimate>) {
    forall i, j | 0 <= i < j < |es| :: es[i].key != es[j].key
  }

  lemma {:induction false} ByKeyContents(es: seq<GroupEstimate>)
    ensures forall k | k in ByKey(es) :: GroupEstimate(k, ByKey(es)[k]) in es
    ensures forall e | e in es :: e.key in ByKey(es)
    ensures DistinctKeys(es) ==> forall e | e in es :: ByKey(es)[e.key] == e.row
  {
    if es != [] {
      var init, last := es[..|es| - 1], es[|es| - 1];
      assert es == init + [last];
      ByKeyContents(init);
      forall e | e in es && DistinctKeys(es) ensures ByKey(es)[e.key] == e.row {
        assert forall i | 0 <= i < |init| :: init[i] == es[i];
        if e in init { assert e.key != last.key; }
      }
    }
  }

  lemma {:induction false} SupportedSubsequence(es: seq<GroupEstimate>)
    ensures forall e | e in Supported(es) :: e in es
    ensures DistinctKeys(es) ==> DistinctKeys(Supported(es))
  {
    if es != [] {
      var init, last := es[..|es| - 1], es[|es| - 1];
      assert es == init + [last];
      SupportedSubsequence(init);
      if DistinctKeys(es) {
        assert forall i | 0 <= i < |init| :: init[i] == es[i];
        forall e | e in init ensures e.key != last.key {
        }
      }
    }
  }

  lemma {:induction false} AdmittedMeaning(st: Settings, es: seq<GroupEstimate>, lam: real)
    requires st.Valid()
    ensures forall e :: e in Admitted(st, es, lam)
                  <==> e in Supported(es) && Admissible(st, e.row, lam)
  {
    hide Admissible;
    if es != [] {
      AdmittedMeaning(st, es[..|es| - 1], lam);
    }
  }

  /** The j-th estimate is the last supported one under a key. */
  ghost predicate LastUnder(fs: seq<GroupEstimate>, j: nat, key: string)
    requires j < |fs|
  {
    && fs[j].key == key && fs[j].row.supported
    && forall m | j < m < |fs| :: !(fs[m].key == key && fs[m].row.supported)
  }

  lemma {:induction false} TableHoldsLast(fs: seq<GroupEstimate>, key: string)
    ensures key in AuditTable(fs) <==> exists j :: 0 <= j < |fs| && LastUnder(fs, j, key)
    ensures forall j | 0 <= j < |fs| && LastUnder(fs, j, key) :: AuditTable(fs)[key] == fs[j].row
  {
    if fs != [] {
      var n := |fs| - 1;
      TableHoldsLast(fs[..n], key);
      var before := Supported(fs[..n]);
      assert (before + [fs[n]])[..|before|] == before && before + [] == before;
      assert forall j | 0 <= j < n :: fs[..n][j] == fs[j];
      if fs[n].key == key && fs[n].row.supported {
        assert LastUnder(fs, n, key);
      } else {
        forall j | 0 <= j < n ensures LastUnder(fs, j, key) <==> LastUnder(fs[..n], j, key) {
        }
      }
    }
  }

  /** The audit split has a last supported estimate under the key, and it is admissible. */
  ghost predicate Confirmed(st: Settings, fs: seq<GroupEstimate>, lam: real, key: string)
    requires st.Valid()
  {
    exists j :: 0 <= j < |fs| && LastUnder(fs, j, key) && Admissible(st, fs[j].row, lam)
  }

  lemma ConfirmedInTable(st: Settings, fs: seq<GroupEstimate>, lam: real, key: string)
    requires st.Valid()
    ensures Confirmed(st, fs, lam, key) <==> key in AuditTable(fs) && Admissible(st, AuditTable(fs)[key], lam)
  {
    hide Admissible, AuditTable, LastUnder;
    TableHoldsLast(fs, key);
  }

  /**
   An artifact selected on one split passes the audit on any other exactly when it is not empty and the
   other split confirms each of its keys; a key without supported evidence there fails it.
   */
  lemma AuditIff(st: Settings, es: seq<GroupEstimate>, fs: seq<GroupEstimate>, lam: real)
    requires st.Valid() && Supported(es) != []
    ensures Audit(PolicyAt(st, es, lam), fs).auditPassed
            <==> Admitted(st, es, lam) != []
                 && forall e | e in Admitted(st, es, lam) :: Confirmed(st, fs, lam, e.key)
  {
    hide CapScores, Admitted, Supported, Admissible, PassesAudit, ByKey, AuditTable, Confirmed;
    var p, admitted, table := PolicyAt(st, es, lam), Admitted(st, es, lam), AuditTable(fs);
    ByKeyContents(admitted);
    if admitted == [] {
      NoKeys();
    } else {
      assert admitted[0] in admitted && admitted[0].key in p.estimates;
    }
    forall k | k in p.estimates
      ensures Confirmed(st, fs, lam, k) <==> k in table && PassesAudit(p, table[k])
      ensures exists e :: e in admitted && e.key == k
    {
      ConfirmedInTable(st, fs, lam, k);
      if k in table { AuditIsAdmission(st, es, table[k], lam); }
      assert GroupEstimate(k, p.estimates[k]) in admitted;
    }
  }

  /**
   An artifact audited on the very estimates that selected it passes exactly when it is not empty
   and, under each key it holds, the last supported estimate is itself admissible.
   */
  lemma SelfAuditIff(st: Settings, es: seq<GroupEstimate>, lam: real)
    requires st.Valid() && Supported(es) != []
    ensures forall e | e in Admitted(st, es, lam) :: e.key in AuditTable(es)
    ensures Audit(PolicyAt(st, es, lam), es).auditPassed
            <==> Admitted(st, es, lam) != []
                 && forall e | e in Admitted(st, es, lam) :: Admissible(st, AuditTable(es)[e.key], lam)
  {
    ByKeyContents(Supported(es));
    AdmittedMeaning(st, es, lam);
    AuditIff(st, es, es, lam);
    hide Admitted, Admissible, Confirmed, Audit;
    forall e | e in Admitted(st, es, lam)
      ensures e.key in AuditTable(es)
      ensures Confirmed(st, es, lam, e.key) <==> Admissible(st, AuditTable(es)[e.key], lam)
    {
      ConfirmedInTable(st, es, lam, e.key);
    }
  }

  lemma NoKeys()
    ensures ByKey([]) == map[]
  {
  }

  lemma AuditIsAdmission(st: Settings, es: seq<GroupEstimate>, e: Estimate, lam: real)
    requires st.Valid() && Supported(es) != []
    ensures PassesAudit(PolicyAt(st, es, lam), e) <==> Admissible(st, e, lam)
  {
    hide CapScores, Quantile;
    ScaleOnce(e, lam, st.delta, st.alpha);
  }

  /** With one estimate under each key that is to say: exactly when it is not empty. */
  lemma SelfAudit(st: Settings, es: seq<GroupEstimate>, lam: real)
    requires st.Valid() && Supported(es) != [] && DistinctKeys(es)
    ensures Audit(PolicyAt(st, es, lam), es).auditPassed <==> Admitted(st, es, lam) != []
  {
    hide CapScores, Quantile, Admitted, Supported, Admissible, ByKey, Audit;
    SelfAuditIff(st, es, lam);
    SupportedSubsequence(es);
    ByKeyContents(Supported(es));
    AdmittedMeaning(st, es, lam);
  }

  /** The benefit scale is floored at epsilon inside the CAP, so flooring it first changes nothing. */
  lemma ScaleOnce(e: Estimate, lam: real, delta: real, alpha: real)
    requires 0.0 <= alpha <= 1.0
    ensures CapScores(e, lam, DEFAULT_BUDGET, Max(delta, DEFAULT_CAP_EPSILON), DEFAULT_CAP_EPSILON, alpha)
         == CapScores(e, lam, DEFAULT_BUDGET, delta, DEFAULT_CAP_EPSILON, alpha)
  {
    var d := DrawArrays(e);
    assert CapSeq(d, lam, DEFAULT_BUDGET, Max(delta, DEFAULT_CAP_EPSILON), DEFAULT_CAP_EPSILON)
        == CapSeq(d, lam, DEFAULT_BUDGET, delta, DEFAULT_CAP_EPSILON);
  }

  // ------------------------------------------------------------------ from artifact to online policy

  function Deploy(p: CalibratedPolicy, clip: int): Admission.Policy {
    Admission.Policy(p.epsAbs, p.epsInc, p.lam, p.alpha, p.delta, DEFAULT_CAP_EPSILON, clip, p.estimates)
  }

  /**
   On evidence the calibrator kept, the online policy with the whole default budget at hand and
   nothing to reserve for can only refuse for lack of budget: calibration and deployment apply
   the same test.
   */
  lemma OnlineAgreesWithSelection(
      st: Settings, es: seq<GroupEstimate>, lam: real, clip: int, cfg: Admission.Config,
      o: Admission.Opportunity, c: (Admission.Level, string))
    requires st.Valid() && Supported(es) != []
    requires cfg.Valid() && cfg.policy == Deploy(PolicyAt(st, es, lam), clip) && cfg.variant == Admission.Full
    requires o.eligible && Admission.Remaining(cfg, o) == 0
    requires Admission.Chosen(cfg, Admission.Candidates(o)) == Some(c)
    ensures var cert := Admission.Certify(cfg, o, true, 0.05);
            && (cert.decision == Admission.Admit || cert.decision == Admission.Fallback(Admission.BudgetExhausted))
            && (cert.decision == Admission.Admit <==> cert.riskCharge <= 0.05 + 0.000001)
  {
    hide CapScores, Quantile;
    var e := cfg.policy.estimates[c.1];
    ByKeyContents(Admitted(st, es, lam));
    AdmittedMeaning(st, es, lam);
    assert Admissible(st, e, lam);
    ScaleOnce(e, lam, st.delta, st.alpha);
    assert Admission.Share(DEFAULT_BUDGET, 0) == DEFAULT_BUDGET;
  }
}
