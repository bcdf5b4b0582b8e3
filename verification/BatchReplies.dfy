/**
 Who gets which response: the answers of a run, read off the replies the backend sent, without
 looking at the steps that handed them over.
 */
module BatchReplies {
  import opened P = BatchProxy

  /** A reply that could be indexed, and the batch it was sent for. */
  datatype Exchange = Exchange(batch: seq<Ticket>, replies: seq<Response>)

  function Exchanged(s: State, step: Step): seq<Exchange>
    requires Enabled(s, step)
  {
    if step.Reply? && step.body.Indexable? then [Exchange(s.flights[step.f].batch, step.body.replies)] else []
  }

  function Exchanges(s: State, steps: seq<Step>): seq<Exchange>
    requires Trace(s, steps)
    decreases steps
  {
    if steps == [] then [] else Exchanged(s, steps[0]) + Exchanges(Next(s, steps[0]), steps[1..])
  }

  /** What the k-th ticket of a batch is to be told: the k-th reply, if there is one. */
  predicate Told(s: State, x: Exchange, k: nat)
    requires k < |x.batch|
  {
    && x.batch[k] < |s.answers|
    && s.answers[x.batch[k]].outcome == if |x.replies| > k then Got(x.replies[k]) else Missing
  }

  /** The k-th ticket of a batch is still waiting for the flush that serves the batch. */
  predicate Due(s: State, x: Exchange, k: nat) {
    && s.flights != [] && s.flights[0].Delivering?
    && Exchange(s.flights[0].batch, s.flights[0].replies) == x && s.flights[0].next <= k
  }

  predicate AnsweredIn(x: Exchange, i: nat) {
    exists k | 0 <= k < |x.batch| :: x.batch[k] == i
  }

  ghost predicate Covered(xs: seq<Exchange>, i: nat) {
    exists x :: x in xs && AnsweredIn(x, i)
  }

  ghost predicate Reflected(s: State, xs: seq<Exchange>) {
    && (forall x, k | x in xs && 0 <= k < |x.batch| :: Told(s, x, k) || Due(s, x, k))
    && (s.flights != [] && s.flights[0].Delivering? ==> Exchange(s.flights[0].batch, s.flights[0].replies) in xs)
    && forall i | 0 <= i < |s.answers| :: Covered(xs, i)
  }

  /** The ticket handed its response next is the first one not yet answered. */
  lemma NextInLine(s: State)
    requires Alive(s) && Fifo(s)
    requires s.flights != [] && s.flights[0].Delivering? && s.flights[0].next < |s.flights[0].batch|
    ensures s.flights[0].batch[s.flights[0].next] == |s.answers|
  {
    var x := s.flights[0];
    var all := TicketsOf(s.answers) + s.lost + InFlight(s) + s.queue;
    assert all[|s.answers|] == x.batch[x.next];
    assert all[|s.answers|] == UpTo(|s.requests|)[|s.answers|];
  }

  lemma ReflectedDeliver(s: State, f: nat, xs: seq<Exchange>)
    requires Alive(s) && Fifo(s) && Enabled(s, Deliver(f)) && Reflected(s, xs)
    ensures Reflected(Next(s, Deliver(f)), xs)
  {
    NextInLine(s);
    hide Fifo, Alive;
    var t := Next(s, Deliver(f));
    var d := Exchange(s.flights[0].batch, s.flights[0].replies);
    assert AnsweredIn(d, |s.answers|);
    forall x, k | x in xs && 0 <= k < |x.batch| ensures Told(t, x, k) || Due(t, x, k) {
      assert Told(s, x, k) || Due(s, x, k);
    }
    assert forall i | 0 <= i < |s.answers| :: Covered(xs, i);
  }

  lemma ReflectedReply(s: State, f: nat, replies: seq<Response>, xs: seq<Exchange>)
    requires Alive(s) && Enabled(s, Reply(f, Indexable(replies))) && Reflected(s, xs)
    ensures Reflected(Next(s, Reply(f, Indexable(replies))), xs + [Exchange(s.flights[f].batch, replies)])
  {
    var t, d := Next(s, Reply(f, Indexable(replies))), Exchange(s.flights[f].batch, replies);
    forall x, k | x in xs + [d] && 0 <= k < |x.batch| ensures Told(t, x, k) || Due(t, x, k) {
      if x in xs { assert Told(s, x, k) || Due(s, x, k); }
    }
    forall i | 0 <= i < |t.answers| ensures Covered(xs + [d], i) {
      assert Covered(xs, i);
      var x :| x in xs && AnsweredIn(x, i);
      assert x in xs + [d];
    }
  }

  /** Steps that neither answer a ticket nor touch a batch being handed over. */
  lemma ReflectedOther(s: State, step: Step, xs: seq<Exchange>)
    requires Alive(s) || (Stalled(s) && step.Submit?)
    requires Enabled(s, step) && Reflected(s, xs)
    requires !step.Deliver? && !(step.Reply? && step.body.Indexable?)
    ensures Reflected(Next(s, step), xs)
  {
    var t := Next(s, step);
    forall x, k | x in xs && 0 <= k < |x.batch| ensures Told(t, x, k) || Due(t, x, k) {
      assert Told(s, x, k) || Due(s, x, k);
    }
    assert forall i | 0 <= i < |s.answers| :: Covered(xs, i);
  }

  lemma ReflectedStep(s: State, step: Step, xs: seq<Exchange>)
    requires Inv(s) && Enabled(s, step) && Reflected(s, xs)
    ensures Reflected(Next(s, step), xs + Exchanged(s, step))
  {
    hide Next, Alive, Stalled, Fifo, Enabled, Reflected;
    if Stalled(s) { StalledStep(s, step); }
    if step.Deliver? {
      ReflectedDeliver(s, step.f, xs);
      assert xs + [] == xs;
    } else if step.Reply? && step.body.Indexable? {
      ReflectedReply(s, step.f, step.body.replies, xs);
    } else {
      ReflectedOther(s, step, xs);
      assert xs + [] == xs;
    }
  }

  lemma {:induction false} ReflectedRun(s: State, steps: seq<Step>, xs: seq<Exchange>)
    requires Inv(s) && Trace(s, steps) && Reflected(s, xs)
    ensures Reflected(After(s, steps), xs + Exchanges(s, steps))
    decreases steps
  {
    hide Next, Inv, Enabled, Reflected, Exchanged;
    if steps == [] {
      assert xs + [] == xs;
    } else {
      var now, rest := Exchanged(s, steps[0]), Exchanges(Next(s, steps[0]), steps[1..]);
      InvStep(s, steps[0]);
      ReflectedStep(s, steps[0], xs);
      ReflectedRun(Next(s, steps[0]), steps[1..], xs + now);
      assert xs + (now + rest) == (xs + now) + rest;
    }
  }

  /**
   On every run: each answered ticket was in a batch the backend replied to, and its answer is the
   reply at its own index in that batch, or the missing error exactly when that reply is too short.
   While no batch is being handed over, every ticket of such a batch has its answer.
   */
  lemma AnswersFollowReplies(steps: seq<Step>)
    requires Trace(INITIAL, steps)
    ensures forall i | 0 <= i < |After(INITIAL, steps).answers| :: Covered(Exchanges(INITIAL, steps), i)
    ensures var s, xs := After(INITIAL, steps), Exchanges(INITIAL, steps);
            && (forall x, k | x in xs && 0 <= k < |x.batch| && x.batch[k] < |s.answers| ::
                  && (s.answers[x.batch[k]] == Answer(x.batch[k], Missing) <==> |x.replies| <= k)
                  && (|x.replies| > k ==> s.answers[x.batch[k]] == Answer(x.batch[k], Got(x.replies[k]))))
            && ((forall f | f in s.flights :: f.Posting?) ==>
                  forall x, k | x in xs && 0 <= k < |x.batch| :: x.batch[k] < |s.answers|)
  {
    hide Next, Trace, After, Exchanges, AnsweredIn;
    NothingReflected();
    InvHolds(steps);
    ReflectedRun(INITIAL, steps, []);
    ExactlyOnceInOrder(steps);
    var s, xs := After(INITIAL, steps), Exchanges(INITIAL, steps);
    assert [] + xs == xs;
    forall x, k | x in xs && 0 <= k < |x.batch| && x.batch[k] < |s.answers| ensures Told(s, x, k) {
      assert Told(s, x, k) || Due(s, x, k);
      if Due(s, x, k) { DueIsUnanswered(s, x, k); }
    }
    if forall f | f in s.flights :: f.Posting? {
      forall x, k | x in xs && 0 <= k < |x.batch| ensures x.batch[k] < |s.answers| {
        assert Told(s, x, k) || Due(s, x, k);
      }
    }
  }

  lemma NothingReflected()
    ensures Inv(INITIAL) && Reflected(INITIAL, [])
  {
  }

  /** A ticket the flush has yet to serve has no answer. */
  lemma DueIsUnanswered(s: State, x: Exchange, k: nat)
    requires Inv(s) && Due(s, x, k) && k < |x.batch|
    ensures x.batch[k] >= |s.answers|
  {
    var f := s.flights[0];
    var all := TicketsOf(s.answers) + s.lost + InFlight(s) + s.queue;
    assert s.lost == [];
    assert InFlight(s)[k - f.next] == x.batch[k];
    assert all[|s.answers| + (k - f.next)] == x.batch[k];
    assert all[|s.answers| + (k - f.next)] == UpTo(|s.requests|)[|s.answers| + (k - f.next)];
  }

  // ------------------------------------------------------------------ the batch counter

  function Batches(xs: seq<Exchange>): nat {
    if xs == [] then 0 else Batches(xs[..|xs| - 1]) + if |xs[|xs| - 1].batch| >= 2 then 1 else 0
  }

  predicate BatchPosted(s: State) {
    s.flights != [] && s.flights[0].Posting? && |s.flights[0].batch| >= 2
  }

  /** Batches of two or more: replied to, posted just now, or lost with their flush. */
  predicate Counted(s: State, xs: seq<Exchange>) {
    s.batchCount == Batches(xs) + (if BatchPosted(s) then 1 else 0) + if s.lost != [] then 1 else 0
  }

  lemma CountedStep(s: State, step: Step, xs: seq<Exchange>)
    requires Inv(s) && Enabled(s, step) && Counted(s, xs)
    ensures Counted(Next(s, step), xs + Exchanged(s, step))
  {
    hide Fifo, Batches;
    if Stalled(s) { StalledStep(s, step); }
    assert xs + [] == xs;
    if step.Reply? && step.body.Indexable? {
      OneMoreBatch(xs, Exchange(s.flights[step.f].batch, step.body.replies));
    }
  }

  lemma OneMoreBatch(xs: seq<Exchange>, x: Exchange)
    ensures Batches(xs + [x]) == Batches(xs) + if |x.batch| >= 2 then 1 else 0
  {
    assert (xs + [x])[..|xs|] == xs;
  }

  lemma {:induction false} CountedRun(s: State, steps: seq<Step>, xs: seq<Exchange>)
    requires Inv(s) && Trace(s, steps) && Counted(s, xs)
    ensures Counted(After(s, steps), xs + Exchanges(s, steps))
    decreases steps
  {
    hide Next, Inv, Enabled, Counted, Exchanged;
    if steps == [] {
      assert xs + [] == xs;
    } else {
      var now, rest := Exchanged(s, steps[0]), Exchanges(Next(s, steps[0]), steps[1..]);
      InvStep(s, steps[0]);
      CountedStep(s, steps[0], xs);
      CountedRun(Next(s, steps[0]), steps[1..], xs + now);
      assert xs + (now + rest) == (xs + now) + rest;
    }
  }

  /** On every run the batch counter is the number of batches of two or more, whatever became of them. */
  lemma BatchesAreCounted(steps: seq<Step>)
    requires Trace(INITIAL, steps)
    ensures Counted(After(INITIAL, steps), Exchanges(INITIAL, steps))
  {
    hide Trace, After, Exchanges;
    NothingReflected();
    CountedRun(INITIAL, steps, []);
    assert [] + Exchanges(INITIAL, steps) == Exchanges(INITIAL, steps);
  }

  // ------------------------------------------------------------------ backends that answer in order

  /** The response meant for each ticket; equal requests may be answered differently. */
  type Server = Ticket -> Response

  /** Every reply of the run lists the right responses, possibly too few. */
  ghost predicate InOrderTrace(serve: Server, steps: seq<Step>)
    requires Trace(INITIAL, steps)
  {
    forall x, k | x in Exchanges(INITIAL, steps) && 0 <= k < |x.batch| && k < |x.replies| ::
      x.replies[k] == serve(x.batch[k])
  }

  /** Every reply of the run is as long as its batch. */
  ghost predicate FullTrace(steps: seq<Step>)
    requires Trace(INITIAL, steps)
  {
    forall x | x in Exchanges(INITIAL, steps) :: |x.replies| >= |x.batch|
  }

  /** Some reply of the run was too short for a ticket of its batch. */
  ghost predicate LeftOut(steps: seq<Step>, i: nat)
    requires Trace(INITIAL, steps)
  {
    exists x, k :: x in Exchanges(INITIAL, steps) && |x.replies| <= k < |x.batch| && x.batch[k] == i
  }

  /**
   With a backend that answers in order the i-th ticket is answered with its own response, except
   that it gets the missing error exactly when the reply to its batch left it out; so always with
   its own response when every reply is as long as its batch.
   */
  lemma EveryTicketGetsItsOwnReply(serve: Server, steps: seq<Step>, i: nat)
    requires Trace(INITIAL, steps) && InOrderTrace(serve, steps)
    requires i < |After(INITIAL, steps).answers|
    ensures var s := After(INITIAL, steps);
            && i < |s.requests|
            && s.answers[i] == Answer(i, if LeftOut(steps, i) then Missing else Got(serve(i)))
            && (FullTrace(steps) ==> s.answers[i] == Answer(i, Got(serve(i))))
  {
    hide Next, Trace, After, Exchanges;
    AnswersFollowReplies(steps);
    ExactlyOnceInOrder(steps);
    var s, xs := After(INITIAL, steps), Exchanges(INITIAL, steps);
    assert Covered(xs, i);
    var x :| x in xs && AnsweredIn(x, i);
    var k :| 0 <= k < |x.batch| && x.batch[k] == i;
    assert |x.replies| > k ==> s.answers[x.batch[k]] == Answer(i, Got(serve(i)));
    if LeftOut(steps, i) {
      var y, m :| y in xs && |y.replies| <= m < |y.batch| && y.batch[m] == i;
      assert s.answers[y.batch[m]] == Answer(i, Missing);
    }
  }
}
