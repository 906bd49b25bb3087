/** What SendAndWait returns: which results a call can get, and that it can get them. */
module AckCalls {
  import opened Wrappers
  import opened AckLane
  import opened AckInvariant
  import opened AckOrder
  import opened AckAnswers
  import opened AckProtocol
  import opened AckLimits
  import opened AckDrain

  // ---- The call ----

  /** This step makes call i return r. */
  ghost predicate Returns(l: Lane, step: Step, i: nat, r: CallResult) {
    && Enabled(l, step) && i < |Apply(l, step).items|
    && Apply(l, step).items[i].phase == Returned(r)
  }

  /** This step puts the item of call i into the queue. */
  ghost predicate Queues(l: Lane, step: Step, i: nat) {
    && Enabled(l, step) && i < |Apply(l, step).items|
    && Apply(l, step).items[i].phase.Awaiting?
  }

  /** A call moves on by a step of its own only. */
  lemma PhaseMoves(l: Lane, step: Step, i: nat)
    requires Enabled(l, step) && i < |l.items|
    ensures i < |Apply(l, step).items|
    ensures !(step.Enqueue? || step.GiveUpEnqueue? || step.TakeResult? || step.GiveUpWait?) || step.i != i ==>
              Apply(l, step).items[i].phase == l.items[i].phase
  {
    hide HonestAck, ApplyWorker, WorkerEnabled;
    if WorkerStep(step) {
      WorkerPhase(l, step, i);
    }
  }

  lemma WorkerPhase(l: Lane, step: Step, i: nat)
    requires WorkerStep(step) && step.w < |l.workers| && WorkerEnabled(l, step) && i < |l.items|
    ensures var l' := ApplyWorker(l, step); |l'.items| == |l.items| && l'.items[i].phase == l.items[i].phase
  {
  }

  /** The context's error once the call is cancelled, and its result once it is there. */
  predicate CanReturn(it: Item, r: CallResult) {
    || (r == ContextError && it.cancelled)
    || (r.Got? && it.phase.Awaiting? && it.result.sent == [r.outcome])
  }

  lemma ReturnsOnlyThen(l: Lane, step: Step, i: nat, r: CallResult)
    requires i < |l.items| && !l.items[i].phase.Returned? && Returns(l, step, i, r)
    requires l.items[i].result.received == 0 && |l.items[i].result.sent| <= 1
    ensures CanReturn(l.items[i], r)
  {
    hide ApplyWorker, WorkerEnabled, HonestAck, ApplyDispatch;
    PhaseMoves(l, step, i);
  }

  lemma ThenReturns(l: Lane, i: nat, r: CallResult) returns (step: Step)
    requires i < |l.items| && !l.items[i].phase.Returned? && CanReturn(l.items[i], r)
    requires l.items[i].result.received == 0
    ensures Returns(l, step, i, r)
  {
    if r.Got? {
      step := TakeResult(i);
    } else if l.items[i].phase.Enqueuing? {
      step := GiveUpEnqueue(i);
    } else {
      step := GiveUpWait(i);
    }
  }

  /**
   What a call that has not returned can return next, whatever the others do: the context's error exactly once it is
   cancelled, and a result exactly when it waits for that result and that result is there.
   */
  lemma CallCanReturn(l: Lane, i: nat, r: CallResult)
    requires Reachable(l) && i < |l.items| && !l.items[i].phase.Returned?
    ensures (exists step :: Returns(l, step, i, r)) <==>
            || (r == ContextError && l.items[i].cancelled)
            || (r.Got? && l.items[i].phase.Awaiting? && l.items[i].result.sent == [r.outcome])
  {
    hide Reachable, Returns;
    OneResult(l, i);
    forall step | Returns(l, step, i, r) ensures CanReturn(l.items[i], r) {
      ReturnsOnlyThen(l, step, i, r);
    }
    if CanReturn(l.items[i], r) {
      var step := ThenReturns(l, i, r);
    }
  }

  /** A call that waits has taken nothing yet, and there is at most one result to take. */
  lemma OneResult(l: Lane, i: nat)
    requires Reachable(l) && i < |l.items| && !l.items[i].phase.Returned?
    ensures l.items[i].result.received == 0 && |l.items[i].result.sent| <= 1
  {
    ReachableInvariant(l);
    assert ItemOk(l.items[i], l.log);
  }

  /** A call is held up only while 32 items are queued. */
  lemma CallCanBeQueued(l: Lane, i: nat)
    requires i < |l.items| && l.items[i].phase.Enqueuing?
    ensures (exists step :: Queues(l, step, i)) <==> |l.buffer| < 32
  {
    hide ApplyWorker, WorkerEnabled, HonestAck, ApplyDispatch;
    forall step | Queues(l, step, i) ensures |l.buffer| < 32 {
      PhaseMoves(l, step, i);
    }
    if |l.buffer| < 32 {
      assert Queues(l, AckLane.Step.Enqueue(i), i);
    }
  }

  // ---- The worker ----

  /** How the item in hand can end if the worker goes on by itself. */
  predicate CanEnd(pc: Worker, it: Item, o: Outcome)
    requires !pc.Idle?
  {
    match pc
    case Taken(_) => o == Failed(SendFailed) || (it.cancelled && o == Failed(Cancelled))
    case Registered(_) => o == Failed(SendFailed) || (it.cancelled && o == Failed(Cancelled))
    case Sending(_) =>
      || (it.cancelled && o == Failed(Cancelled))
      || (it.write == Done(false) && o == Failed(SendFailed))
      || (it.write == Done(true) && CanEndWaiting(it, o))
    case Waiting(_) => CanEndWaiting(it, o)
    case Clearing(_, why) => o == Failed(why)
    case Delivering(_, outcome) => o == outcome
  }

  predicate CanEndWaiting(it: Item, o: Outcome) {
    || o == Failed(TimedOut)
    || (it.cancelled && o == Failed(Cancelled))
    || (it.ackCh.Ready() && o == Acked(it.ackCh.sent[it.ackCh.received]))
  }

  predicate InHandCanEnd(l: Lane, o: Outcome) {
    InHand(l.workers) != [] && l.workers[0].item < |l.items| && CanEnd(l.workers[0], l.items[l.workers[0].item], o)
  }

  /** After this run the next resolution is that of item i with outcome o. */
  ghost predicate ResolvesNext(l: Lane, run: seq<Step>, i: nat, o: Outcome) {
    && WorkerOnly(run) && Exec(l, run).Some?
    && var l' := Exec(l, run).value;
    |l'.resolved| > |l.resolved| && l'.resolved[|l.resolved|] == Resolution(i, o)
  }

  /** A step of the worker opens no end that was not open before, and a delivery is the end that was left. */
  lemma WorkerNarrows(l: Lane, step: Step, o: Outcome)
    requires |l.workers| == 1 && !l.workers[0].Idle? && WorkerStep(step) && step.w == 0 && WorkerEnabled(l, step)
    ensures var l' := ApplyWorker(l, step);
            if step.Deliver? then
              && l'.resolved == l.resolved + [Resolution(l.workers[0].item, l.workers[0].outcome)]
              && InHandCanEnd(l, l.workers[0].outcome)
            else
              && l'.resolved == l.resolved && |l'.workers| == 1 && !l'.workers[0].Idle?
              && l'.workers[0].item == l.workers[0].item && (InHandCanEnd(l', o) ==> InHandCanEnd(l, o))
  {
  }

  /** Until its item is resolved, a run of the worker keeps it in hand. */
  predicate StillInHand(l: Lane, i: nat, l': Lane, n: nat) {
    && |l'.resolved| == n && |l'.workers| == 1 && !l'.workers[0].Idle? && l'.workers[0].item == i
  }

  lemma {:induction false} RunNarrows(l: Lane, run: seq<Step>, o: Outcome)
    requires Inv(l) && InHand(l.workers) != [] && WorkerOnly(run) && Exec(l, run).Some?
    ensures var i, n, l' := l.workers[0].item, |l.resolved|, Exec(l, run).value;
            && Inv(l')
            && (if StillInHand(l, i, l', n) then InHandCanEnd(l', o) ==> InHandCanEnd(l, o)
                else |l'.resolved| > n && l'.resolved[n].item == i && InHandCanEnd(l, l'.resolved[n].outcome))
  {
    assert |l.workers| == 1;
    hide Inv, Enabled, Apply, InHandCanEnd;
    if run == [] {
    } else {
      var init, step := run[..|run| - 1], run[|run| - 1];
      var l1 := Exec(l, init).value;
      RunNarrows(l, init, o);
      StepKeeps(l1, step);
      WorkerStepUses(l1, step);
      if StillInHand(l, l.workers[0].item, l1, |l.resolved|) {
        StepNarrows(l1, step, o);
        if step.Deliver? {
          RunNarrows(l, init, l1.workers[0].outcome);
        }
      }
    }
  }

  lemma StepNarrows(l: Lane, step: Step, o: Outcome)
    requires Inv(l) && Enabled(l, step) && WorkerStep(step) && InHand(l.workers) != []
    ensures var l' := Apply(l, step);
            if step.Deliver? then
              && l.workers[0].Delivering?
              && l'.resolved == l.resolved + [Resolution(l.workers[0].item, l.workers[0].outcome)]
              && InHandCanEnd(l, l.workers[0].outcome)
            else
              && l'.resolved == l.resolved && |l'.workers| == 1 && !l'.workers[0].Idle?
              && l'.workers[0].item == l.workers[0].item && (InHandCanEnd(l', o) ==> InHandCanEnd(l, o))
  {
    OnlyWorker(l, step);
    hide Inv, ApplyWorker, InHandCanEnd;
    WorkerNarrows(l, step, o);
  }

  /** The step that leads to this end. */
  function Toward(pc: Worker, it: Item, o: Outcome): Step
    requires !pc.Idle?
  {
    match pc
    case Taken(_) => Register(0)
    case Registered(_) => if o == Failed(SendFailed) then RefuseSend(0) else StartWrite(0)
    case Sending(_) => if it.cancelled && o == Failed(Cancelled) then CancelSend(0) else FinishSend(0)
    case Waiting(_) =>
      if o == Failed(TimedOut) then TimeOut(0)
      else if it.cancelled && o == Failed(Cancelled) then CancelWait(0)
      else TakeAck(0)
    case Clearing(_, _) => Clear(0)
    case Delivering(_, _) => Deliver(0)
  }

  lemma TowardIsEnabled(l: Lane, o: Outcome)
    requires Inv(l) && InHandCanEnd(l, o)
    ensures |l.workers| == 1 && WorkerEnabled(l, Toward(l.workers[0], l.items[l.workers[0].item], o))
    ensures l.workers[0].Registered? ==> l.items[l.workers[0].item].write.NotStarted?
    ensures l.workers[0].Waiting? ==> l.items[l.workers[0].item].write == Done(true)
  {
    assert |l.workers| == 1;
    var i := l.workers[0].item;
    assert InHandOk(l.workers[0], l.items[i], l.log) && ItemOk(l.items[i], l.log);
    hide Inv, Valid;
  }

  lemma TowardKeeps(l: Lane, o: Outcome)
    requires InHandCanEnd(l, o) && |l.workers| == 1
    requires l.workers[0].Registered? ==> l.items[l.workers[0].item].write.NotStarted?
    requires l.workers[0].Waiting? ==> l.items[l.workers[0].item].write == Done(true)
    requires WorkerEnabled(l, Toward(l.workers[0], l.items[l.workers[0].item], o))
    ensures var step := Toward(l.workers[0], l.items[l.workers[0].item], o);
            var l' := ApplyWorker(l, step);
            if step.Deliver? then l'.resolved == l.resolved + [Resolution(l.workers[0].item, o)]
            else
              && l'.resolved == l.resolved && InHandCanEnd(l', o)
              && l'.workers[0].item == l.workers[0].item
  {
  }

  lemma TowardLeads(l: Lane, o: Outcome)
    requires Inv(l) && InHandCanEnd(l, o)
    ensures var step := Toward(l.workers[0], l.items[l.workers[0].item], o);
            && Enabled(l, step) && WorkerStep(step)
            && var l' := Apply(l, step);
            if step.Deliver? then l'.resolved == l.resolved + [Resolution(l.workers[0].item, o)]
            else
              && l'.resolved == l.resolved && InHandCanEnd(l', o)
              && l'.workers[0].item == l.workers[0].item
  {
    hide Inv, CanEnd, ApplyWorker, WorkerEnabled;
    TowardIsEnabled(l, o);
    TowardKeeps(l, o);
  }

  lemma {:induction false} EndRun(l: Lane, o: Outcome) returns (run: seq<Step>)
    requires Inv(l) && InHandCanEnd(l, o)
    ensures ResolvesNext(l, run, l.workers[0].item, o)
    decreases StepsLeft(l)
  {
    TowardLeads(l, o);
    var step := Toward(l.workers[0], l.items[l.workers[0].item], o);
    hide Inv, Enabled, Apply, StepsLeft, InHandCanEnd, Toward;
    WorkerStepUses(l, step);
    if step.Deliver? {
      run := [step];
      assert run[..0] == [] && Exec(l, []) == Some(l);
    } else {
      StepKeeps(l, step);
      var rest := EndRun(Apply(l, step), o);
      run := [step] + rest;
      ExecCons(l, step, rest);
    }
  }

  /**
   How the item in hand can end, if nothing happens but steps of the worker, in every reachable state: a refused or
   failed send, the timeout, or the cancellation of the call, each where the code allows it, or the ack that is in
   its channel.
   */
  lemma ItemEnds(l: Lane, o: Outcome)
    requires Reachable(l) && InHand(l.workers) != []
    ensures l.workers[0].item < |l.items|
    ensures (exists run :: ResolvesNext(l, run, l.workers[0].item, o)) <==>
            CanEnd(l.workers[0], l.items[l.workers[0].item], o)
  {
    ReachableInvariant(l);
    assert Inv(l);
    assert l.workers[0].item < |l.items|;
    hide Reachable, LaneInv, Inv, CanEnd;
    forall run | ResolvesNext(l, run, l.workers[0].item, o) ensures InHandCanEnd(l, o) {
      RunNarrows(l, run, o);
    }
    if InHandCanEnd(l, o) {
      var run := EndRun(l, o);
    }
  }

  // ---- Every call comes to its result ----

  /** An item that is past its call stands among the enqueued ones. */
  predicate AllEnqueued(l: Lane) {
    forall i :: 0 <= i < |l.items| && !l.items[i].stage.Calling? ==> i in l.enqueued
  }

  lemma StageMoves(l: Lane, step: Step, i: nat)
    requires Enabled(l, step) && i < |Apply(l, step).items|
    ensures l.enqueued <= Apply(l, step).enqueued
    ensures Apply(l, step).items[i].stage.Calling?
            || (i < |l.items| && !l.items[i].stage.Calling?)
            || i in Apply(l, step).enqueued
            || (step.Dequeue? && l.buffer[0] == i && i < |l.items|)
            || (step.Deliver? && l.workers[step.w].item == i && i < |l.items|)
  {
    hide HonestAck, ApplyWorker, WorkerEnabled;
    if WorkerStep(step) {
      WorkerStage(l, step, i);
    }
  }

  lemma WorkerStage(l: Lane, step: Step, i: nat)
    requires WorkerStep(step) && step.w < |l.workers| && WorkerEnabled(l, step)
    requires i < |ApplyWorker(l, step).items|
    ensures var l' := ApplyWorker(l, step);
            && |l'.items| == |l.items| && l'.enqueued == l.enqueued
            && (l'.items[i].stage == l.items[i].stage
                || (step.Dequeue? && l.buffer[0] == i) || (step.Deliver? && l.workers[step.w].item == i))
  {
  }

  lemma AllEnqueuedKeeps(l: Lane, step: Step)
    requires Inv(l) && AllEnqueued(l) && Enabled(l, step)
    ensures AllEnqueued(Apply(l, step))
  {
    var l' := Apply(l, step);
    HeadIsQueued(l, step);
    hide Inv, Apply, Enabled;
    forall i | 0 <= i < |l'.items| && !l'.items[i].stage.Calling? ensures i in l'.enqueued {
      StageMoves(l, step, i);
    }
  }

  lemma HeadIsQueued(l: Lane, step: Step)
    requires Inv(l) && Enabled(l, step)
    ensures step.Dequeue? && l.buffer[0] < |l.items| ==> !l.items[l.buffer[0]].stage.Calling?
    ensures step.Deliver? ==> |l.workers| == 1 && step.w == 0 && l.workers[0].item < |l.items|
    ensures step.Deliver? ==> !l.items[l.workers[0].item].stage.Calling?
  {
    if step.Deliver? {
      assert InHandOk(l.workers[0], l.items[l.workers[0].item], l.log);
    }
    hide ItemsOk, ClaimsOk, ResolvedOk, PendingOk, Conserved, InHandOk;
  }

  lemma {:induction false} AllEnqueuedRun(run: seq<Step>)
    requires Exec(EMPTY_LANE, run).Some?
    ensures Inv(Exec(EMPTY_LANE, run).value) && AllEnqueued(Exec(EMPTY_LANE, run).value)
  {
    hide Inv, Apply, Enabled;
    if run == [] {
      EmptyInv();
    } else {
      AllEnqueuedRun(run[..|run| - 1]);
      var l := Exec(EMPTY_LANE, run[..|run| - 1]).value;
      StepKeeps(l, run[|run| - 1]);
      AllEnqueuedKeeps(l, run[|run| - 1]);
    }
  }

  /** Once the worker has drained its queue, every call still waiting can return, with the outcome of its item. */
  lemma DrainedCallsReturn(l: Lane, i: nat)
    requires Reachable(l) && Drained(l) && i < |l.items| && l.items[i].phase.Awaiting?
    ensures exists k :: 0 <= k < |l.resolved| && l.resolved[k].item == i
                        && Returns(l, TakeResult(i), i, Got(l.resolved[k].outcome))
  {
    var run :| Exec(EMPTY_LANE, run) == Some(l);
    AllEnqueuedRun(run);
    assert ItemOk(l.items[i], l.log);
    assert i in l.enqueued;
    var k :| 0 <= k < |l.enqueued| && l.enqueued[k] == i;
    assert |ItemsOf(l.resolved)| == |l.resolved| && ItemsOf(l.resolved)[k] == l.resolved[k].item;
    OneResult(l, i);
    hide Inv, ItemOk;
    assert Returns(l, TakeResult(i), i, Got(l.resolved[k].outcome));
  }

  /** A call on an idle lane with an empty queue is sent, acknowledged and returned with this very ack, good or bad. */
  lemma RoundTrip(from: Lane, l: Lane, ack: Ack) returns (l': Lane)
    requires LaneInv(from, 0, 0) && Leads(from, l) && NoneInHand(l) && l.buffer == []
    ensures Leads(from, l') && |l'.items| == |l.items| + 1
    ensures l'.items[|l.items|].phase == Returned(Got(Acked(Delivery(|l.log|, ack))))
    ensures l'.items[|l.items|].calledAt == |l.log| && l'.items[|l.items|].registeredAt == Some(|l.log|)
    ensures l'.resolved == l.resolved + [Resolution(|l.items|, Acked(Delivery(|l.log|, ack)))]
    ensures l'.wire == l.wire + [|l.items|]
  {
    hide LaneInv, Inv, Leads, HonestAck, Apply, Enabled;
    LeadsInvariant(from, l);
    InvOf(l);
    var l1, i := NextItem(from, l);
    LeadsInvariant(from, l1);
    TakenIsFresh(l1, i);
    var l2 := RunToWaiting(from, l1, i);
    hide Untroubled;
    var l3 := RunToAckPut(from, l2, i, ack);
    var l4 := RunToAcked(from, l3, i, Delivery(|l2.log|, ack));
    l' := RunToReturned(from, l4, i, Acked(Delivery(|l2.log|, ack)));
  }

  lemma RunToReturned(from: Lane, l: Lane, i: nat, o: Outcome) returns (l': Lane)
    requires Leads(from, l) && i < |l.items| && l.items[i].phase.Awaiting? && l.items[i].result == Chan([o], 0)
    ensures Leads(from, l')
    ensures l' == l.(items := l.items[i := l.items[i].(phase := Returned(Got(o)), result := Chan([o], 1))])
  {
    hide Leads;
    LeadsStep(from, l, TakeResult(i));
    l' := Apply(l, TakeResult(i));
  }

  /** A call on an idle lane with an empty queue whose frame cannot be written is returned as failed; nothing is sent. */
  lemma FailedRoundTrip(from: Lane, l: Lane) returns (l': Lane)
    requires LaneInv(from, 0, 0) && Leads(from, l) && NoneInHand(l) && l.buffer == []
    ensures Leads(from, l') && |l'.items| == |l.items| + 1
    ensures l'.items[|l.items|].phase == Returned(Got(Failed(SendFailed)))
    ensures l'.resolved == l.resolved + [Resolution(|l.items|, Failed(SendFailed))] && l'.wire == l.wire
  {
    hide LaneInv, Inv, Leads, HonestAck, Apply, Enabled;
    LeadsInvariant(from, l);
    InvOf(l);
    var l1, i := NextItem(from, l);
    LeadsInvariant(from, l1);
    TakenIsFresh(l1, i);
    var l2 := RunToFailedWrite(from, l1, i);
    hide Untroubled;
    var l3 := RunToResolved(from, l2, i, SendFailed);
    l' := RunToReturned(from, l3, i, Failed(SendFailed));
  }

  lemma RunToFailedWrite(from: Lane, l: Lane, i: nat) returns (l': Lane)
    requires Leads(from, l) && l.workers == [Taken(i)] && i < |l.items|
    ensures Leads(from, l') && l'.workers == [Clearing(i, SendFailed)] && |l'.items| == |l.items|
    ensures l'.items[i].phase == l.items[i].phase && l'.items[i].result == l.items[i].result
    ensures l'.wire == l.wire && l'.resolved == l.resolved
  {
    hide Leads;
    LeadsStep(from, l, Register(0));
    var l1 := Apply(l, Register(0));
    assert l1.workers == [Registered(i)];
    LeadsStep(from, l1, StartWrite(0));
    var l2 := Apply(l1, StartWrite(0));
    assert l2.workers == [Sending(i)] && l2.items[i].write.Pending?;
    l' := FailWrite(from, l2, i);
  }

  lemma FailWrite(from: Lane, l: Lane, i: nat) returns (l': Lane)
    requires Leads(from, l) && l.workers == [Sending(i)] && i < |l.items| && l.items[i].write.Pending?
    ensures Leads(from, l') && l'.workers == [Clearing(i, SendFailed)]
    ensures l'.items == l.items[i := l.items[i].(write := Done(false))]
    ensures l'.wire == l.wire && l'.resolved == l.resolved
  {
    hide Leads;
    LeadsStep(from, l, WriteFrame(i, false));
    var l1 := l.(items := l.items[i := l.items[i].(write := Done(false))]);
    assert Apply(l, WriteFrame(i, false)) == l1;
    LeadsStep(from, l1, FinishSend(0));
    l' := Apply(l1, FinishSend(0));
  }
}
