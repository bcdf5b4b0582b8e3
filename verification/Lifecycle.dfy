/**
 The six-state lifecycle of a knowledge item: a guarded transition log and the automatic rule
 that proposes transitions from calibrated evidence.
 */
module Lifecycle {
  import opened Wrappers

  datatype LifecycleState = Candidate | Quarantined | Probation | Certified | Deprecated | Disabled

  function Rank(s: LifecycleState): nat {
    match s
    case Candidate => 0
    case Quarantined => 1
    case Probation => 2
    case Certified => 3
    case Deprecated => 4
    case Disabled => 5
  }

  /** A requested state: one of the six, or text that names none of them. */
  datatype Target = Known(state: LifecycleState) | Unknown(text: string)

  datatype Event = Event(kid: string, before: LifecycleState, after: LifecycleState, reason: string)

  datatype Rejection = InvalidState(text: string)
                     | BackwardNotAllowed(before: LifecycleState, after: LifecycleState)

  datatype Book = Book(states: map<string, LifecycleState>, history: map<string, seq<Event>>)

  const EMPTY := Book(map[], map[])

  function StateOf(b: Book, kid: string): LifecycleState {
    if kid in b.states then b.states[kid] else Candidate
  }

  function HistoryOf(b: Book, kid: string): seq<Event> {
    if kid in b.history then b.history[kid] else []
  }

  /** Never backwards and never sideways, except that disabling is always allowed. */
  predicate Allowed(before: LifecycleState, after: LifecycleState) {
    after == Disabled || Rank(after) > Rank(before)
  }

  function Moved(b: Book, kid: string, after: LifecycleState, reason: string): Book {
    Book(b.states[kid := after],
         b.history[kid := HistoryOf(b, kid) + [Event(kid, StateOf(b, kid), after, reason)]])
  }

  function AfterTransition(b: Book, kid: string, target: Target, reason: string): Book {
    if target.Known? && Allowed(StateOf(b, kid), target.state) then Moved(b, kid, target.state, reason) else b
  }

  /** Evidence on one item at one moment; violation and conflict counts default to zero. */
  datatype Evidence = Evidence(
    uplift: real, harm: real, tau: real, hStar: real, observations: int, violations: int, conflicts: int)

  predicate FullGate(e: Evidence) {
    e.observations >= 5 && e.uplift >= e.tau && e.harm <= e.hStar
  }

  /** The state the automatic rule proposes. The certification test precedes the deprecation test. */
  function Suggest(current: LifecycleState, e: Evidence): Option<LifecycleState> {
    if current == Candidate && e.observations >= 1 then Some(Quarantined)
    else if current == Quarantined && e.observations >= 3 && e.uplift > 0.3 then Some(Probation)
    else if current == Probation && FullGate(e) then Some(Certified)
    else if current == Certified && (e.violations >= 2 || e.conflicts >= 2) then Some(Deprecated)
    else if current == Deprecated && (e.violations >= 5 || e.harm > e.hStar * 2.0) then Some(Disabled)
    else if current == Probation && e.observations >= 10 && e.uplift < 0.5 then Some(Deprecated)
    else if current == Certified && e.harm > e.hStar * 1.5 then Some(Deprecated)
    else None
  }

  class LifecycleManager {
    var states: map<string, LifecycleState>
    var history: map<string, seq<Event>>

    function View(): Book
      reads this
    {
      Book(states, history)
    }

    constructor ()
      ensures View() == EMPTY
    {
      states, history := map[], map[];
    }

    function GetState(kid: string): (s: LifecycleState)
      reads this
      ensures s == StateOf(View(), kid)
    {
      if kid in states then states[kid] else Candidate
    }

    method Transition(kid: string, target: Target, reason: string) returns (r: Result<Event, Rejection>)
      modifies this
      ensures View() == AfterTransition(old(View()), kid, target, reason)
      ensures target.Unknown? ==> r == Err(InvalidState(target.text))
      ensures target.Known? ==>
                var before := StateOf(old(View()), kid);
                r == if Allowed(before, target.state) then Ok(Event(kid, before, target.state, reason))
                     else Err(BackwardNotAllowed(before, target.state))
    {
      if target.Unknown? {
        return Err(InvalidState(target.text));
      }
      var before, after := GetState(kid), target.state;
      if after != Disabled && Rank(after) <= Rank(before) {
        return Err(BackwardNotAllowed(before, after));
      }
      states := states[kid := after];
      var event := Event(kid, before, after, reason);
      if kid !in history {
        history := history[kid := []];
      }
      history := history[kid := history[kid] + [event]];
      return Ok(event);
    }

    /** One automatic evaluation followed by the transition it proposes, as after an observation. */
    method AutoTransition(kid: string, e: Evidence)
      modifies this
      ensures View() == AfterOp(old(View()), Auto(kid, e))
    {
      var proposed := Suggest(GetState(kid), e);
      if proposed.Some? {
        var r := Transition(kid, Known(proposed.value), "auto_after_observation");
      }
    }

    method ForceDisable(kid: string, reason: string) returns (r: Result<Event, Rejection>)
      modifies this
      ensures View() == AfterTransition(old(View()), kid, Known(Disabled), reason)
      ensures r.Ok?
    {
      r := Transition(kid, Known(Disabled), reason);
    }
  }

  // ------------------------------------------------------------------ runs

  datatype Op = Request(kid: string, target: Target, reason: string)
              | Auto(kid: string, evidence: Evidence)

  function AfterOp(b: Book, op: Op): Book {
    match op
    case Request(kid, target, reason) => AfterTransition(b, kid, target, reason)
    case Auto(kid, e) =>
      match Suggest(StateOf(b, kid), e)
      case None => b
      case Some(s) => AfterTransition(b, kid, Known(s), "auto_after_observation")
  }

  function Run(ops: seq<Op>): Book {
    if ops == [] then EMPTY else AfterOp(Run(ops[..|ops| - 1]), ops[|ops| - 1])
  }

  /** An unbroken chain of allowed moves that starts at Candidate. */
  ghost predicate Chain(h: seq<Event>) {
    && (h != [] ==> h[0].before == Candidate)
    && (forall i | 0 < i < |h| :: h[i].before == h[i - 1].after)
    && (forall i | 0 <= i < |h| :: Allowed(h[i].before, h[i].after))
  }

  function LastState(h: seq<Event>): LifecycleState {
    if h == [] then Candidate else h[|h| - 1].after
  }

  /** The automatic rule never proposes what the guard would refuse. */
  lemma SuggestionsAreAllowed(s: LifecycleState, e: Evidence)
    ensures Suggest(s, e).Some? ==> Rank(Suggest(s, e).value) > Rank(s)
  {
  }

  ghost predicate Recorded(b: Book, kid: string) {
    && Chain(HistoryOf(b, kid))
    && LastState(HistoryOf(b, kid)) == StateOf(b, kid)
    && forall i | 0 <= i < |HistoryOf(b, kid)| :: HistoryOf(b, kid)[i].kid == kid
  }

  lemma MoveRecorded(b: Book, id: string, after: LifecycleState, reason: string, kid: string)
    requires Recorded(b, kid) && Allowed(StateOf(b, id), after)
    ensures Recorded(Moved(b, id, after, reason), kid)
  {
  }

  lemma {:induction false} HistoryIsChain(ops: seq<Op>, kid: string)
    ensures Recorded(Run(ops), kid)
  {
    hide Suggest, Recorded, Allowed, Moved;
    if ops == [] {
      NothingRecorded(kid);
    } else {
      var b, op := Run(ops[..|ops| - 1]), ops[|ops| - 1];
      HistoryIsChain(ops[..|ops| - 1], kid);
      var target := if op.Request? then op.target
                    else if Suggest(StateOf(b, op.kid), op.evidence).Some?
                    then Known(Suggest(StateOf(b, op.kid), op.evidence).value)
                    else Unknown("");
      if target.Known? && Allowed(StateOf(b, op.kid), target.state) {
        MoveRecorded(b, op.kid, target.state, if op.Request? then op.reason else "auto_after_observation", kid);
      }
    }
  }

  lemma NothingRecorded(kid: string)
    ensures Recorded(EMPTY, kid)
  {
  }

  /** Ranks rise along a chain until Disabled, and nothing but repeated disabling follows it. */
  lemma {:induction false} ChainRises(h: seq<Event>, i: nat)
    requires Chain(h) && i < |h|
    ensures h[i].before == Disabled <==> exists j :: 0 <= j < i && h[j].after == Disabled
    ensures h[i].before == Disabled ==> h[i].after == Disabled
    ensures h[i].before != Disabled ==> Rank(h[i].after) > Rank(h[i].before) >= i
  {
    if i > 0 {
      ChainRises(h, i - 1);
      assert h[i].before == h[i - 1].after;
      if j :| 0 <= j < i - 1 && h[j].after == Disabled {
        assert h[i - 1].before == Disabled;
      }
    }
  }

  /**
   The history of an item is a chain from Candidate to its present state. Ranks rise strictly
   until Disabled, so at most five events change the state; Disabled is never left.
   */
  lemma LifecycleRuns(ops: seq<Op>, kid: string, i: nat)
    requires i < |HistoryOf(Run(ops), kid)|
    ensures var h := HistoryOf(Run(ops), kid);
            && Chain(h)
            && LastState(h) == StateOf(Run(ops), kid)
            && (i >= 5 ==> h[i].before == h[i].after == Disabled)
            && (h[i].before != Disabled ==> Rank(h[i].after) > Rank(h[i].before) >= i)
            && (h[i].after == Disabled ==> StateOf(Run(ops), kid) == Disabled)
  {
    HistoryIsChain(ops, kid);
    hide Run, HistoryOf, StateOf, Chain;
    var h := HistoryOf(Run(ops), kid);
    ChainRises(h, i);
    ChainRises(h, |h| - 1);
  }

  lemma {:induction false} HistoryOnlyGrows(ops: seq<Op>, k: nat, kid: string)
    requires k <= |ops|
    ensures HistoryOf(Run(ops[..k]), kid) <= HistoryOf(Run(ops), kid)
    ensures StateOf(Run(ops[..k]), kid) == Disabled ==> StateOf(Run(ops), kid) == Disabled
  {
    if k < |ops| {
      var before := ops[..|ops| - 1];
      assert before[..k] == ops[..k];
      HistoryOnlyGrows(before, k, kid);
    } else {
      assert ops[..k] == ops;
    }
  }

  // ------------------------------------------------------------------ automatic runs

  predicate AutoOnly(ops: seq<Op>) {
    forall i | 0 <= i < |ops| :: ops[i].Auto?
  }

  /** Step k of an automatic run is the one that appended event i of an item, on its evidence. */
  ghost predicate MovedAt(ops: seq<Op>, k: nat, kid: string, i: nat)
    requires k < |ops| && AutoOnly(ops) && i < |HistoryOf(Run(ops), kid)|
  {
    var e := HistoryOf(Run(ops), kid)[i];
    && ops[k].kid == kid
    && |HistoryOf(Run(ops[..k]), kid)| == i < |HistoryOf(Run(ops[..k + 1]), kid)|
    && StateOf(Run(ops[..k]), kid) == e.before
    && Suggest(e.before, ops[k].evidence) == Some(e.after)
  }

  lemma {:induction false} AutoEventHasCause(ops: seq<Op>, kid: string, i: nat) returns (k: nat)
    requires AutoOnly(ops) && i < |HistoryOf(Run(ops), kid)|
    ensures k < |ops| && MovedAt(ops, k, kid, i)
  {
    var n := |ops| - 1;
    var before := ops[..n];
    if i < |HistoryOf(Run(before), kid)| {
      k := AutoEventHasCause(before, kid, i);
      assert before[..k] == ops[..k] && before[..k + 1] == ops[..k + 1];
      HistoryOnlyGrows(ops, n, kid);
    } else {
      k := n;
      LastStepMoves(ops, kid, i);
    }
  }

  lemma LastStepMoves(ops: seq<Op>, kid: string, i: nat)
    requires AutoOnly(ops) && ops != []
    requires |HistoryOf(Run(ops[..|ops| - 1]), kid)| <= i < |HistoryOf(Run(ops), kid)|
    ensures MovedAt(ops, |ops| - 1, kid, i)
  {
    assert ops[..|ops| - 1 + 1] == ops;
  }

  /**
   In an automatic run an item becomes Certified only out of Probation and only on evidence that
   passes the full gate: five observations, uplift at the threshold, harm within its bound.
   */
  lemma CertifiedOnlyThroughTheGate(ops: seq<Op>, kid: string, i: nat) returns (k: nat)
    requires AutoOnly(ops) && i < |HistoryOf(Run(ops), kid)|
    requires HistoryOf(Run(ops), kid)[i].after == Certified
    ensures k < |ops| && MovedAt(ops, k, kid, i)
    ensures HistoryOf(Run(ops), kid)[i].before == Probation && FullGate(ops[k].evidence)
  {
    k := AutoEventHasCause(ops, kid, i);
  }

  /** As called after an observation, without violation or conflict counts. */
  predicate CountsOmitted(ops: seq<Op>) {
    forall i | 0 <= i < |ops| :: ops[i].Auto? && ops[i].evidence.violations == 0 && ops[i].evidence.conflicts == 0
  }

  /** From that call site a certified item falls only on a harm spike, and is disabled only on a larger one. */
  lemma DemotionsFromObservations(ops: seq<Op>, kid: string, i: nat) returns (k: nat)
    requires CountsOmitted(ops) && i < |HistoryOf(Run(ops), kid)|
    ensures k < |ops| && MovedAt(ops, k, kid, i)
    ensures var e, x := HistoryOf(Run(ops), kid)[i], ops[k].evidence;
            && (e.before == Certified ==> e.after == Deprecated && x.harm > x.hStar * 1.5)
            && (e.after == Disabled ==> e.before == Deprecated && x.harm > x.hStar * 2.0)
            && (e.after == Deprecated && e.before == Probation ==>
                  x.observations >= 10 && x.uplift < 0.5 && !FullGate(x))
  {
    k := AutoEventHasCause(ops, kid, i);
    hide Run, HistoryOf, StateOf;
    DemotionCause(StateOf(Run(ops[..k]), kid), ops[k].evidence);
  }

  lemma DemotionCause(s: LifecycleState, x: Evidence)
    requires Suggest(s, x).Some? && x.violations == 0 && x.conflicts == 0
    ensures var t := Suggest(s, x).value;
            && (s == Certified ==> t == Deprecated && x.harm > x.hStar * 1.5)
            && (t == Disabled ==> s == Deprecated && x.harm > x.hStar * 2.0)
            && (t == Deprecated && s == Probation ==> x.observations >= 10 && x.uplift < 0.5 && !FullGate(x))
  {
  }

  // ------------------------------------------------------------------ what an evaluation does

  /**
   One evaluation moves an item exactly on these causes, one state at a time, and touches no other item.
   Deprecation of an item on probation waits for the certification test to fail.
   */
  lemma EvaluationMoves(b: Book, kid: string, e: Evidence, other: string)
    ensures var s, t := StateOf(b, kid), StateOf(AfterOp(b, Auto(kid, e)), kid);
            && (s == Candidate ==> t == if e.observations >= 1 then Quarantined else Candidate)
            && (s == Quarantined ==> t == if e.observations >= 3 && e.uplift > 0.3 then Probation else Quarantined)
            && (s == Probation && e.observations >= 5 && e.uplift >= e.tau && e.harm <= e.hStar ==> t == Certified)
            && (s == Probation && !(e.observations >= 5 && e.uplift >= e.tau && e.harm <= e.hStar) ==>
                  t == if e.observations >= 10 && e.uplift < 0.5 then Deprecated else Probation)
            && (s == Certified ==>
                  t == if e.violations >= 2 || e.conflicts >= 2 || e.harm > 1.5 * e.hStar then Deprecated
                       else Certified)
            && (s == Deprecated ==>
                  t == if e.violations >= 5 || e.harm > 2.0 * e.hStar then Disabled else Deprecated)
            && (s == Disabled ==> t == Disabled)
    ensures other != kid ==> StateOf(AfterOp(b, Auto(kid, e)), other) == StateOf(b, other)
  {
  }

  /** The same evidence on one item, evaluated n times. */
  function Steadily(kid: string, e: Evidence, n: nat): (ops: seq<Op>)
    ensures |ops| == n
  {
    if n == 0 then [] else Steadily(kid, e, n - 1) + [Auto(kid, e)]
  }

  /** Where steady evidence leads. */
  function Destination(e: Evidence): LifecycleState {
    var spike := e.violations >= 2 || e.conflicts >= 2 || e.harm > 1.5 * e.hStar;
    var worse := e.violations >= 5 || e.harm > 2.0 * e.hStar;
    if e.observations < 1 then Candidate
    else if e.observations < 3 || e.uplift <= 0.3 then Quarantined
    else if e.observations >= 5 && e.uplift >= e.tau && e.harm <= e.hStar then
      if spike then if worse then Disabled else Deprecated else Certified
    else if e.observations >= 10 && e.uplift < 0.5 then if worse then Disabled else Deprecated
    else Probation
  }

  /** The states steady evidence passes through: each evaluation makes the next move or none is left. */
  function Reached(e: Evidence, n: nat): LifecycleState {
    if n == 0 then Candidate else Onward(Reached(e, n - 1), e)
  }

  function Onward(s: LifecycleState, e: Evidence): LifecycleState {
    match Suggest(s, e)
    case None => s
    case Some(t) => t
  }

  lemma {:induction false} SteadyRun(kid: string, e: Evidence, n: nat)
    ensures StateOf(Run(Steadily(kid, e, n)), kid) == Reached(e, n)
  {
    hide Suggest, StateOf, AfterOp, Onward;
    EmptyBook(kid);
    if n > 0 {
      SteadyRun(kid, e, n - 1);
      var before := Steadily(kid, e, n - 1);
      assert Steadily(kid, e, n)[..n - 1] == before;
      OneEvaluation(Run(before), kid, e);
    }
  }

  lemma OneEvaluation(b: Book, kid: string, e: Evidence)
    ensures StateOf(AfterOp(b, Auto(kid, e)), kid) == Onward(StateOf(b, kid), e)
  {
    SuggestionsAreAllowed(StateOf(b, kid), e);
    hide Suggest;
  }

  lemma EmptyBook(kid: string)
    ensures StateOf(Run([]), kid) == Candidate
  {
  }

  lemma SettledStays(e: Evidence)
    ensures Suggest(Destination(e), e).None?
  {
  }

  lemma FiveSteps(e: Evidence)
    ensures Reached(e, 5) == Destination(e)
  {
    assert Reached(e, 0) == Candidate;
    assert Reached(e, 1) == Onward(Candidate, e);
    assert Reached(e, 2) == Onward(Reached(e, 1), e);
    assert Reached(e, 3) == Onward(Reached(e, 2), e);
    assert Reached(e, 4) == Onward(Reached(e, 3), e);
    assert Reached(e, 5) == Onward(Reached(e, 4), e);
  }

  lemma {:induction false} Settles(e: Evidence, n: nat)
    requires n >= 5
    ensures Reached(e, n) == Destination(e)
  {
    if n == 5 {
      FiveSteps(e);
    } else {
      Settles(e, n - 1);
      SettledStays(e);
    }
  }

  /** Evaluated five times or more on steady evidence, an item comes to rest where that evidence leads. */
  lemma SteadyEvidenceSettles(kid: string, e: Evidence, n: nat)
    requires n >= 5
    ensures StateOf(Run(Steadily(kid, e, n)), kid) == Destination(e)
  {
    hide Run, StateOf, Destination, Reached;
    SteadyRun(kid, e, n);
    Settles(e, n);
  }
}
