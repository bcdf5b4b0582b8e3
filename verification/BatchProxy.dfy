/**
 The batching proxy as a system of atomic steps. Every lock section is one step; so are the
 arrival of the backend's reply and the hand-over of a single response. Any number of client,
 timer and flush threads may be interleaved.
 */
module BatchProxy {
  type Request = string
  type Response = string

  /** A submission number; the queue holds tickets, the log of requests what they asked. */
  type Ticket = nat

  /**
   The parsed body of the backend's answer to a batch. A list, and likewise a text or an empty
   object, is read by index; null, a number, a boolean or a non-empty object raises when it is.
   */
  datatype Body = Indexable(replies: seq<Response>) | Malformed

  datatype Outcome = Got(response: Response) | Missing

  datatype Answer = Answer(ticket: Ticket, outcome: Outcome)

  /** A flush thread between its two lock sections. */
  datatype Flight = Posting(batch: seq<Ticket>)
                  | Delivering(batch: seq<Ticket>, replies: seq<Response>, next: nat)

  datatype State = State(
    requests: seq<Request>,      // everything submitted so far; its length is the request count
    queue: seq<Ticket>,
    timerRunning: bool,
    pendingTimers: nat,          // timers started whose flush has not entered its first lock section
    flights: seq<Flight>,
    answers: seq<Answer>,        // responses in the order they were handed over
    batchCount: nat,
    lost: seq<Ticket>)           // taken by a flush thread that died

  const INITIAL := State([], [], false, 0, [], [], 0, [])

  datatype Step =
    | Submit(request: Request)
    | Take
    | Reply(f: nat, body: Body)
    | Deliver(f: nat)
    | Rearm(f: nat)

  predicate Enabled(s: State, step: Step) {
    match step
    case Submit(_) => true
    case Take => s.pendingTimers > 0
    case Reply(f, body) =>
      f < |s.flights| && s.flights[f].Posting?
      && (|s.flights[f].batch| == 1 ==> body.Indexable? && |body.replies| == 1)
      && (body.Malformed? ==> |s.flights[f].batch| >= 2)
    case Deliver(f) => f < |s.flights| && s.flights[f].Delivering? && s.flights[f].next < |s.flights[f].batch|
    case Rearm(f) => f < |s.flights| && s.flights[f].Delivering? && s.flights[f].next >= |s.flights[f].batch|
  }

  function ReplyAt(replies: seq<Response>, i: nat): Outcome {
    if i < |replies| then Got(replies[i]) else Missing
  }

  function Without<T>(s: seq<T>, i: nat): seq<T>
    requires i < |s|
  {
    s[..i] + s[i + 1..]
  }

  function Next(s: State, step: Step): State
    requires Enabled(s, step)
  {
    match step
    case Submit(request) =>
      var start := s.queue == [] && !s.timerRunning;
      s.(requests := s.requests + [request], queue := s.queue + [|s.requests|],
         timerRunning := s.timerRunning || start, pendingTimers := s.pendingTimers + if start then 1 else 0)
    case Take =>
      var t := s.(pendingTimers := s.pendingTimers - 1);
      if s.queue == [] then t
      else t.(queue := [], flights := s.flights + [Posting(s.queue)],
              batchCount := s.batchCount + if |s.queue| == 1 then 0 else 1)
    case Reply(f, Indexable(replies)) =>
      s.(flights := s.flights[f := Delivering(s.flights[f].batch, replies, 0)])
    case Reply(f, Malformed) =>
      s.(flights := Without(s.flights, f), lost := s.lost + s.flights[f].batch)
    case Deliver(f) =>
      var x := s.flights[f];
      s.(flights := s.flights[f := x.(next := x.next + 1)],
         answers := s.answers + [Answer(x.batch[x.next], ReplyAt(x.replies, x.next))])
    case Rearm(f) =>
      var again := s.queue != [];
      s.(flights := Without(s.flights, f), timerRunning := again,
         pendingTimers := s.pendingTimers + if again then 1 else 0)
  }

  // ------------------------------------------------------------------ the object behind the steps

  class BatchProxy {
    var requests: seq<Request>
    var queue: seq<Ticket>
    var timerRunning: bool
    var pendingTimers: nat
    var flights: seq<Flight>
    var answers: seq<Answer>
    var batchCount: nat
    var lost: seq<Ticket>

    function View(): State
      reads this
    {
      State(requests, queue, timerRunning, pendingTimers, flights, answers, batchCount, lost)
    }

    constructor ()
      ensures View() == INITIAL
    {
      requests, queue, timerRunning, pendingTimers := [], [], false, 0;
      flights, answers, batchCount, lost := [], [], 0, [];
    }

    method SubmitSection(request: Request) returns (ticket: Ticket)
      modifies this
      ensures View() == Next(old(View()), Submit(request))
      ensures ticket == |old(requests)|
    {
      ticket := |requests|;
      queue := queue + [ticket];
      requests := requests + [request];
      if |queue| == 1 && !timerRunning {
        timerRunning := true;
        pendingTimers := pendingTimers + 1;
      }
    }

    method TakeSection()
      requires Enabled(View(), Take)
      modifies this
      ensures View() == Next(old(View()), Take)
    {
      pendingTimers := pendingTimers - 1;
      if queue == [] {
        return;
      }
      var batch := queue;
      queue := [];
      flights := flights + [Posting(batch)];
      if |batch| != 1 {
        batchCount := batchCount + 1;
      }
    }

    /** A body that cannot be indexed kills the flush thread, which leaves the flag as it is. */
    method ReplyArrives(f: nat, body: Body)
      requires Enabled(View(), Reply(f, body))
      modifies this
      ensures View() == Next(old(View()), Reply(f, body))
    {
      match body {
        case Indexable(replies) =>
          flights := flights[f := Delivering(flights[f].batch, replies, 0)];
        case Malformed =>
          lost := lost + flights[f].batch;
          flights := flights[..f] + flights[f + 1..];
      }
    }

    method DeliverNext(f: nat)
      requires Enabled(View(), Deliver(f))
      modifies this
      ensures View() == Next(old(View()), Deliver(f))
    {
      var x := flights[f];
      var outcome := if x.next < |x.replies| then Got(x.replies[x.next]) else Missing;
      answers := answers + [Answer(x.batch[x.next], outcome)];
      flights := flights[f := Delivering(x.batch, x.replies, x.next + 1)];
    }

    method RearmSection(f: nat)
      requires Enabled(View(), Rearm(f))
      modifies this
      ensures View() == Next(old(View()), Rearm(f))
    {
      flights := flights[..f] + flights[f + 1..];
      timerRunning := false;
      if queue != [] {
        timerRunning := true;
        pendingTimers := pendingTimers + 1;
      }
    }
  }

  // ------------------------------------------------------------------ the invariant

  /** Tickets taken by a flush and not yet answered. */
  function InFlight(s: State): seq<Ticket> {
    if s.flights == [] then []
    else match s.flights[0]
      case Posting(batch) => batch
      case Delivering(batch, _, next) => if next <= |batch| then batch[next..] else []
  }

  function TicketsOf(answers: seq<Answer>): (r: seq<Ticket>)
    ensures |r| == |answers|
    ensures forall i | 0 <= i < |answers| :: r[i] == answers[i].ticket
  {
    seq(|answers|, i requires 0 <= i < |answers| => answers[i].ticket)
  }

  function UpTo(n: nat): (r: seq<Ticket>)
    ensures |r| == n
    ensures forall i | 0 <= i < n :: r[i] == i
  {
    seq(n, i requires 0 <= i < n => i)
  }

  /** The timer discipline: one wake-up owner at most, and the flag tells whether there is one. */
  predicate OneWaker(s: State) {
    && s.pendingTimers + |s.flights| <= 1
    && (s.timerRunning <==> s.pendingTimers + |s.flights| == 1)
    && (s.queue != [] ==> s.timerRunning)
    && (s.pendingTimers > 0 ==> s.queue != [])
  }

  /** Answered, lost, in flight and queued, in that order, are all tickets ever issued, in order. */
  predicate Fifo(s: State) {
    && TicketsOf(s.answers) + s.lost + InFlight(s) + s.queue == UpTo(|s.requests|)
    && (s.flights != [] && s.flights[0].Delivering? ==> s.flights[0].next <= |s.flights[0].batch|)
  }

  /** The flag is set and nobody is left to clear it. */
  predicate Stalled(s: State) {
    s.timerRunning && s.pendingTimers == 0 && s.flights == [] && s.lost != []
  }

  predicate Alive(s: State) {
    OneWaker(s) && s.lost == []
  }

  predicate Inv(s: State) {
    (Alive(s) || Stalled(s)) && Fifo(s)
  }

  predicate Breaks(step: Step) {
    step.Reply? && step.body.Malformed?
  }

  /** A malformed reply stalls the proxy; every other step keeps the timer discipline. */
  lemma WakerStep(s: State, step: Step)
    requires Enabled(s, step) && Alive(s)
    ensures if Breaks(step) then Stalled(Next(s, step)) else Alive(Next(s, step))
  {
  }

  /** A stalled proxy accepts requests and does nothing else, ever. */
  lemma StalledStep(s: State, step: Step)
    requires Enabled(s, step) && Stalled(s)
    ensures step.Submit? && Stalled(Next(s, step))
    ensures Next(s, step).answers == s.answers && Next(s, step).lost == s.lost
  {
  }

  lemma FifoSubmit(s: State, request: Request)
    requires Fifo(s)
    ensures Fifo(Next(s, Submit(request)))
  {
    var t := Next(s, Submit(request));
    hide UpTo;
    assert UpTo(|t.requests|) == UpTo(|s.requests|) + [|s.requests|];
    var front := TicketsOf(s.answers) + s.lost + InFlight(s);
    assert front + t.queue == (front + s.queue) + [|s.requests|];
  }

  lemma FifoDeliver(s: State, f: nat)
    requires Enabled(s, Deliver(f)) && Alive(s) && Fifo(s)
    ensures Fifo(Next(s, Deliver(f)))
  {
    hide UpTo, ReplyAt;
    var t, x := Next(s, Deliver(f)), s.flights[0];
    assert InFlight(s) == [x.batch[x.next]] + InFlight(t);
    assert TicketsOf(t.answers) == TicketsOf(s.answers) + [x.batch[x.next]];
    assert t.lost == [] == s.lost;
    assert TicketsOf(t.answers) + [] + InFlight(t) == TicketsOf(s.answers) + [] + InFlight(s);
  }

  /** The tickets not yet answered, in order. */
  function Unanswered(s: State): seq<Ticket> {
    s.lost + InFlight(s) + s.queue
  }

  lemma SameOrder(s: State, t: State)
    requires Fifo(s) && t.answers == s.answers && t.requests == s.requests && Unanswered(t) == Unanswered(s)
    ensures TicketsOf(t.answers) + t.lost + InFlight(t) + t.queue == UpTo(|t.requests|)
  {
    hide UpTo, TicketsOf, InFlight;
    var a := TicketsOf(s.answers);
    assert a + t.lost + InFlight(t) + t.queue == a + Unanswered(t);
    assert a + s.lost + InFlight(s) + s.queue == a + Unanswered(s);
  }

  /** Taking, losing or finishing a batch moves tickets over a border and changes no order. */
  lemma FifoMove(s: State, step: Step)
    requires Enabled(s, step) && Alive(s) && Fifo(s) && !step.Submit? && !step.Deliver?
    ensures Fifo(Next(s, step))
  {
    hide UpTo, TicketsOf;
    SameOrder(s, Next(s, step));
  }

  lemma FifoStep(s: State, step: Step)
    requires Enabled(s, step) && Inv(s)
    ensures Fifo(Next(s, step))
  {
    hide Next, Alive, Stalled, Fifo, Enabled;
    if Stalled(s) { StalledStep(s, step); }
    match step
    case Submit(request) => FifoSubmit(s, request);
    case Deliver(f) => FifoDeliver(s, f);
    case Take => FifoMove(s, step);
    case Reply(_, _) => FifoMove(s, step);
    case Rearm(_) => FifoMove(s, step);
  }

  lemma InvStep(s: State, step: Step)
    requires Enabled(s, step) && Inv(s)
    ensures Inv(Next(s, step))
  {
    hide Next, Alive, Stalled, Fifo, Enabled;
    FifoStep(s, step);
    if Alive(s) { WakerStep(s, step); } else { StalledStep(s, step); }
  }

  // ------------------------------------------------------------------ runs

  predicate Trace(s: State, steps: seq<Step>)
    decreases steps
  {
    steps == [] || (Enabled(s, steps[0]) && Trace(Next(s, steps[0]), steps[1..]))
  }

  function After(s: State, steps: seq<Step>): State
    requires Trace(s, steps)
    decreases steps
  {
    if steps == [] then s else After(Next(s, steps[0]), steps[1..])
  }

  /** Some batch of two or more got a malformed reply. */
  predicate Broken(steps: seq<Step>) {
    steps != [] && (Breaks(steps[0]) || Broken(steps[1..]))
  }

  lemma {:induction false} InvRun(s: State, steps: seq<Step>)
    requires Inv(s) && Trace(s, steps)
    ensures Inv(After(s, steps))
    decreases steps
  {
    hide Next, Inv, Enabled;
    if steps != [] {
      InvStep(s, steps[0]);
      InvRun(Next(s, steps[0]), steps[1..]);
    }
  }

  lemma {:induction false} StalledRun(s: State, steps: seq<Step>)
    requires Stalled(s) && Trace(s, steps)
    ensures Stalled(After(s, steps)) && !Broken(steps) && Completions(steps) == 0
    ensures After(s, steps).answers == s.answers && After(s, steps).lost == s.lost
    decreases steps
  {
    hide Next, Stalled, Enabled;
    if steps != [] {
      StalledStep(s, steps[0]);
      StalledRun(Next(s, steps[0]), steps[1..]);
    }
  }

  lemma {:induction false} AliveRun(s: State, steps: seq<Step>)
    requires Alive(s) && Trace(s, steps)
    ensures if Broken(steps) then Stalled(After(s, steps)) else Alive(After(s, steps))
    decreases steps
  {
    hide Next, Stalled, Alive, Enabled, Breaks;
    if steps != [] {
      WakerStep(s, steps[0]);
      if Breaks(steps[0]) {
        StalledRun(Next(s, steps[0]), steps[1..]);
      } else {
        AliveRun(Next(s, steps[0]), steps[1..]);
      }
    }
  }

  lemma InvHolds(steps: seq<Step>)
    requires Trace(INITIAL, steps)
    ensures Inv(After(INITIAL, steps))
    ensures if Broken(steps) then Stalled(After(INITIAL, steps)) else Alive(After(INITIAL, steps))
  {
    hide Next, Broken;
    InvRun(INITIAL, steps);
    AliveRun(INITIAL, steps);
  }

  /**
   No lost wakeup, in any interleaving: a flush never finds the queue empty; and the timer
   discipline holds, so that an unanswered ticket has a timer or flush at work for it, exactly
   when no batch of two or more got a malformed reply.
   */
  lemma NoLostWakeup(steps: seq<Step>)
    requires Trace(INITIAL, steps)
    ensures var s := After(INITIAL, steps);
            && (Enabled(s, Take) ==> s.queue != [])
            && (OneWaker(s) <==> !Broken(steps))
            && ((|s.answers| < |s.requests| ==> s.pendingTimers + |s.flights| == 1) <==> !Broken(steps))
  {
    hide Broken;
    InvHolds(steps);
    var s := After(INITIAL, steps);
    assert |UpTo(|s.requests|)| == |s.answers| + |s.lost| + |InFlight(s)| + |s.queue|;
  }

  /** Exactly once, first in first out: conservation of tickets on every run, broken ones included. */
  lemma ExactlyOnceInOrder(steps: seq<Step>)
    requires Trace(INITIAL, steps)
    ensures var s := After(INITIAL, steps);
            && TicketsOf(s.answers) + s.lost + InFlight(s) + s.queue == UpTo(|s.requests|)
            && |s.requests| == |s.answers| + |s.lost| + |InFlight(s)| + |s.queue|
            && (s.lost != [] <==> Broken(steps))
            && forall i | 0 <= i < |s.answers| :: s.answers[i].ticket == i
  {
    hide Broken;
    InvHolds(steps);
    var s := After(INITIAL, steps);
    var all := TicketsOf(s.answers) + s.lost + InFlight(s) + s.queue;
    assert |all| == |UpTo(|s.requests|)|;
    forall i | 0 <= i < |s.answers| ensures s.answers[i].ticket == i {
      assert all[i] == TicketsOf(s.answers)[i];
      assert UpTo(|s.requests|)[i] == i;
    }
  }

  /** Two requests batched, a malformed reply, and a third request. */
  const STALLING := [Submit("first"), Submit("second"), Take, Reply(0, Malformed), Submit("third")]

  lemma StallingRun()
    ensures Trace(INITIAL, STALLING)
    ensures var s := After(INITIAL, STALLING);
            Stalled(s) && s.answers == [] && s.lost == [0, 1] && s.queue == [2]
  {
    var s1 := Next(INITIAL, Submit("first"));
    var s2 := Next(s1, Submit("second"));
    var s3 := Next(s2, Take);
    var s4 := Next(s3, Reply(0, Malformed));
    var s5 := Next(s4, Submit("third"));
    assert s2.queue == [0, 1] && s3.flights == [Posting([0, 1])];
    assert s4.flights == [] && s4.lost == [0, 1];
    var t := STALLING;
    assert t[1..][0] == Submit("second") && t[1..][1..][0] == Take && t[1..][1..][1..][0] == Reply(0, Malformed);
    assert t[1..][1..][1..][1..] == [Submit("third")] && [Submit("third")][1..] == [];
    assert Trace(s4, [Submit("third")]) && After(s4, [Submit("third")]) == s5;
    assert Trace(s3, t[1..][1..][1..]) && After(s3, t[1..][1..][1..]) == s5;
    assert Trace(s2, t[1..][1..]) && After(s2, t[1..][1..]) == s5;
    assert Trace(s1, t[1..]) && After(s1, t[1..]) == s5;
  }

  /** After such a run no request is ever answered, whatever follows. */
  lemma MalformedReplyStalls(more: seq<Step>)
    requires Trace(INITIAL, STALLING) && Trace(After(INITIAL, STALLING), more)
    ensures After(After(INITIAL, STALLING), more).answers == []
    ensures After(After(INITIAL, STALLING), more).pendingTimers == 0
  {
    hide Trace, After;
    StallingRun();
    StalledRun(After(INITIAL, STALLING), more);
  }

  // ------------------------------------------------------------------ bounded waiting

  /** Flush completions a ticket may still have to see before it is answered. */
  function Wait(s: State, t: Ticket): nat {
    if t < |s.answers| then 0
    else if s.flights != [] && t >= |s.answers| + |InFlight(s)| then 2
    else 1
  }

  function Completions(steps: seq<Step>): nat {
    if steps == [] then 0 else (if steps[0].Rearm? then 1 else 0) + Completions(steps[1..])
  }

  lemma WaitStep(s: State, step: Step, t: Ticket)
    requires Enabled(s, step) && Alive(s) && Fifo(s) && t < |s.requests| && !Breaks(step)
    ensures Wait(Next(s, step), t) <= Wait(s, t)
    ensures step.Rearm? ==> Wait(s, t) != 1 && (Wait(s, t) > 0 ==> Wait(Next(s, step), t) < Wait(s, t))
  {
    assert |UpTo(|s.requests|)| == |s.answers| + |InFlight(s)| + |s.queue|;
  }

  /** By the time as many flushes have completed as a ticket waits for, it has been answered. */
  lemma {:induction false} WaitRun(s: State, steps: seq<Step>, t: Ticket)
    requires Inv(s) && Trace(s, steps) && t < |s.requests|
    ensures t < |After(s, steps).answers| || Completions(steps) < Wait(s, t)
    decreases steps
  {
    hide Next, Alive, Stalled, Fifo, Enabled, Breaks;
    if Stalled(s) {
      StalledRun(s, steps);
    } else if steps != [] {
      InvStep(s, steps[0]);
      StepGrows(s, steps[0]);
      if Breaks(steps[0]) {
        WakerStep(s, steps[0]);
        StalledRun(Next(s, steps[0]), steps[1..]);
        BreakCompletesNothing(steps[0]);
      } else {
        WaitStep(s, steps[0], t);
        WaitRun(Next(s, steps[0]), steps[1..], t);
      }
    }
  }

  lemma BreakCompletesNothing(step: Step)
    requires Breaks(step)
    ensures !step.Rearm?
  {
  }

  lemma StepGrows(s: State, step: Step)
    requires Enabled(s, step)
    ensures |s.requests| <= |Next(s, step).requests| && |s.answers| <= |Next(s, step).answers|
  {
  }

  /** A ticket is answered no later than the second flush completion after its submission. */
  lemma AnsweredByTheSecondCompletion(before: seq<Step>, request: Request, after: seq<Step>)
    requires Trace(INITIAL, before)
    requires var s := Next(After(INITIAL, before), Submit(request)); Trace(s, after)
    requires Completions(after) >= 2
    ensures var t := |After(INITIAL, before).requests|;
            t < |After(Next(After(INITIAL, before), Submit(request)), after).answers|
  {
    hide Next, Inv;
    var s := After(INITIAL, before);
    InvHolds(before);
    InvStep(s, Submit(request));
    SubmitGrows(s, request);
    WaitRun(Next(s, Submit(request)), after, |s.requests|);
  }

  lemma SubmitGrows(s: State, request: Request)
    ensures |Next(s, Submit(request)).requests| == |s.requests| + 1
  {
  }

  // ------------------------------------------------------------------ progress

  function FlightWork(x: Flight): nat {
    match x
    case Posting(batch) => 4 + 2 * |batch|
    case Delivering(batch, _, next) => 2 + if next <= |batch| then 2 * (|batch| - next) else 0
  }

  function FlightsWork(xs: seq<Flight>): nat {
    if xs == [] then 0 else FlightWork(xs[0]) + FlightsWork(xs[1..])
  }

  /** Steps the proxy can still take on its own. */
  function Work(s: State): nat {
    10 * |s.queue| + s.pendingTimers + FlightsWork(s.flights)
  }

  lemma WorkStep(s: State, step: Step)
    requires Enabled(s, step) && (Alive(s) || Stalled(s)) && !step.Submit?
    ensures Work(Next(s, step)) < Work(s)
  {
    if s.flights != [] {
      assert s.flights == [s.flights[0]] && s.flights[1..] == [];
    }
    var t := Next(s, step);
    if t.flights != [] {
      assert t.flights == [t.flights[0]] && t.flights[1..] == [];
    }
  }

  predicate SubmitFree(steps: seq<Step>) {
    forall i | 0 <= i < |steps| :: !steps[i].Submit?
  }

  lemma {:induction false} SubmitFreeRunsAreShort(s: State, steps: seq<Step>)
    requires Inv(s) && Trace(s, steps) && SubmitFree(steps)
    ensures |steps| + Work(After(s, steps)) <= Work(s)
    decreases steps
  {
    hide Next, Alive, Stalled, Fifo, Work, Enabled;
    if steps != [] {
      InvStep(s, steps[0]);
      WorkStep(s, steps[0]);
      SubmitFreeRunsAreShort(Next(s, steps[0]), steps[1..]);
    }
  }

  /** The proxy has nothing left to do on its own. */
  ghost predicate Idle(s: State) {
    forall step: Step :: Enabled(s, step) ==> step.Submit?
  }

  lemma IdleMeansAnswered(s: State)
    requires Inv(s) && Idle(s)
    ensures |s.answers| == |s.requests| <==> Alive(s)
  {
    assert !Enabled(s, Take);
    assert !Enabled(s, Reply(0, Indexable([""])));
    assert !Enabled(s, Deliver(0));
    assert !Enabled(s, Rearm(0));
    assert |UpTo(|s.requests|)| == |s.answers| + |s.lost| + |InFlight(s)| + |s.queue|;
  }

  lemma {:induction false} TraceAppend(s: State, steps: seq<Step>, more: seq<Step>)
    requires Trace(s, steps) && Trace(After(s, steps), more)
    ensures Trace(s, steps + more) && After(s, steps + more) == After(After(s, steps), more)
    ensures Broken(steps + more) <==> Broken(steps) || Broken(more)
    decreases steps
  {
    hide Next, Enabled, Breaks;
    if steps == [] {
      assert steps + more == more;
    } else {
      assert (steps + more)[0] == steps[0] && (steps + more)[1..] == steps[1..] + more;
      TraceAppend(Next(s, steps[0]), steps[1..], more);
    }
  }

  /**
   Whatever the proxy is left to do on its own comes to an end, and then every ticket has been
   answered exactly when no batch of two or more ever got a malformed reply.
   */
  lemma DrainsCompletely(steps: seq<Step>, more: seq<Step>)
    requires Trace(INITIAL, steps) && Trace(After(INITIAL, steps), more) && SubmitFree(more)
    ensures |more| <= Work(After(INITIAL, steps))
    ensures var s := After(After(INITIAL, steps), more);
            Idle(s) ==> (|s.answers| == |s.requests| <==> !Broken(steps) && !Broken(more))
  {
    hide Next, Inv, Work, Idle, Trace, After, Broken;
    InvHolds(steps);
    SubmitFreeRunsAreShort(After(INITIAL, steps), more);
    TraceAppend(INITIAL, steps, more);
    InvHolds(steps + more);
    var s := After(After(INITIAL, steps), more);
    if Idle(s) { IdleMeansAnswered(s); }
  }
}
