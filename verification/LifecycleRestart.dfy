/**
 A run that ends in a backoff wait with the client recorded connected: RunForever is cancelled while
 connected, which leaves the record alone, and is called again while the server cannot be dialled.
 */
module LifecycleRestart {
  import opened Wrappers
  import opened Lifecycle
  import opened LifecycleRuns
  import opened ClientCore
  import AckLane
  import Backoff

  lemma StepReachable(s: State, step: Step)
    requires Reachable(s) && Enabled(s, step)
    ensures Reachable(Apply(s, step))
  {
    hide Enabled, Apply;
    ConfigStays(s, step);
    var run :| Exec(Init(s.interval, s.maxMissed), run) == Some(s);
    assert (run + [step])[..|run|] == run;
    assert Exec(Init(s.interval, s.maxMissed), run + [step]) == Some(Apply(s, step));
  }

  /** A step of the calling goroutine. */
  lemma Go(s: State, step: Step) returns (s': State)
    requires Reachable(s)
    requires (LoopStep(step) && LoopEnabled(s, step)) || (RunStep(step) && RunEnabled(s, step))
    ensures s' == (if LoopStep(step) then ApplyLoop(s, step) else ApplyRun(s, step)) && Reachable(s')
  {
    s' := Apply(s, step);
    StepReachable(s, step);
    hide Reachable, ApplyLoop, ApplyRun, LoopEnabled, RunEnabled;
  }

  /** A step of somebody else. */
  lemma GoOutside(s: State, step: Step) returns (s': State)
    requires Reachable(s) && !LoopStep(step) && !RunStep(step) && OutsideEnabled(s, step)
    ensures s' == ApplyOutside(s, step) && Reachable(s')
  {
    s' := Apply(s, step);
    StepReachable(s, step);
    hide Reachable, ApplyOutside, OutsideEnabled;
  }

  lemma GoLane(s: State, r: string, ls: AckLane.Step) returns (s': State)
    requires Reachable(s) && r in s.lanes && r != "" && !ls.Dispatch? && AckLane.Enabled(s.lanes[r], ls)
    ensures s' == s.(lanes := s.lanes[r := AckLane.Apply(s.lanes[r], ls)]) && Reachable(s')
  {
    hide Reachable, AckLane.Apply, AckLane.Enabled;
    s' := GoOutside(s, LaneStep(r, ls));
  }

  // ---- The subscription is acknowledged ----

  const SENT := AckLane.Item(false, AckLane.Awaiting, AckLane.Chan([], 0), AckLane.Chan([], 0), AckLane.Done(true),
                             AckLane.InFlight, 0, Some(0))

  lemma FrameSent(s: State, r: string) returns (s': State)
    requires Reachable(s) && r in s.lanes && r != "" && s.lanes[r] == AckLane.Apply(AckLane.EMPTY_LANE, AckLane.Call)
    ensures Reachable(s') && s' == s.(lanes := s'.lanes) && r in s'.lanes
    ensures var l := s'.lanes[r];
            l.items == [SENT] && l.workers == [AckLane.Waiting(0)] && l.pending == Some(0) && l.claims == []
                && l.log == []
  {
    hide Reachable;
    var s1 := Registered(s, r);
    var s2 := GoLane(s1, r, AckLane.StartWrite(0));
    var s3 := GoLane(s2, r, AckLane.WriteFrame(0, true));
    s' := GoLane(s3, r, AckLane.FinishSend(0));
  }

  lemma Registered(s: State, r: string) returns (s': State)
    requires Reachable(s) && r in s.lanes && r != "" && s.lanes[r] == AckLane.Apply(AckLane.EMPTY_LANE, AckLane.Call)
    ensures Reachable(s') && s' == s.(lanes := s'.lanes) && r in s'.lanes
    ensures var l := s'.lanes[r];
            && l.items == [SENT.(write := AckLane.NotStarted)] && l.workers == [AckLane.Registered(0)]
            && l.pending == Some(0) && l.claims == [] && l.log == []
  {
    hide Reachable;
    var s1 := GoLane(s, r, AckLane.Enqueue(0));
    var s2 := GoLane(s1, r, AckLane.Dequeue(0));
    s' := GoLane(s2, r, AckLane.Register(0));
  }

  /** The ack of the subscription arrives in the channel of its item. */
  lemma AckArrived(s: State, r: string) returns (s': State)
    requires Reachable(s) && r in s.lanes && r != "" && !IsHeartbeat(r) && s.loops.reading
    requires var l := s.lanes[r];
             l.items == [SENT] && l.workers == [AckLane.Waiting(0)] && l.pending == Some(0) && l.claims == []
             && l.log == []
    ensures Reachable(s') && s' == s.(lanes := s'.lanes) && r in s'.lanes
    ensures var l := s'.lanes[r];
            && l.workers == [AckLane.Waiting(0)]
            && l.items == [SENT.(ackCh := AckLane.Chan([AckLane.Delivery(0, AckLane.Ack(r, 0, 0))], 0))]
  {
    hide Reachable;
    var ack := AckLane.Ack(r, 0, 0);
    var s1 := AckDispatched(s, ack);
    assert s1.lanes[r].claims == [AckLane.Claim(0, AckLane.Delivery(0, ack))];
    s' := GoLane(s1, r, AckLane.PutAck(0));
    assert [] + [AckLane.Delivery(0, ack)] == [AckLane.Delivery(0, ack)];
  }

  lemma AckDispatched(s: State, ack: AckLane.Ack) returns (s': State)
    requires Reachable(s) && ack.reqId in s.lanes && ack.reqId != "" && !IsHeartbeat(ack.reqId) && s.loops.reading
    ensures Reachable(s')
    ensures s' == s.(lanes := s.lanes[ack.reqId := AckLane.ApplyDispatch(s.lanes[ack.reqId], ack, true)])
  {
    hide Reachable, AckLane.ApplyDispatch;
    s' := GoOutside(s, DispatchFrame(AckFrame(ack)));
  }

  lemma AckReturned(s: State, r: string) returns (s': State)
    requires Reachable(s) && r in s.lanes && r != "" && !IsHeartbeat(r) && s.loops.reading && s.at.sub == Sub(r, 0)
    requires var l := s.lanes[r];
             l.items == [SENT] && l.workers == [AckLane.Waiting(0)] && l.pending == Some(0) && l.claims == []
             && l.log == []
    ensures Reachable(s') && s' == s.(lanes := s'.lanes) && SubPhase(s').Some? && Succeeded(SubPhase(s').value)
  {
    hide Reachable;
    var s1 := AckArrived(s, r);
    var s2 := GoLane(s1, r, AckLane.TakeAck(0));
    var s3 := GoLane(s2, r, AckLane.Deliver(0));
    assert s3.lanes[r].items[0].result.sent == [AckLane.Acked(AckLane.Delivery(0, AckLane.Ack(r, 0, 0)))];
    s' := GoLane(s3, r, AckLane.TakeResult(0));
  }

  // ---- Connected, cancelled, called again ----

  lemma SubscriptionSent(interval: int, maxMissed: int, r: string) returns (s: State)
    requires interval > 0 && maxMissed > 0 && r != ""
    ensures Reachable(s) && s.at == Control(AwaitingSubscribe, true, false, 0, Sub(r, 0)) && s.loops.reading
    ensures s.lanes == map[r := AckLane.Apply(AckLane.EMPTY_LANE, AckLane.Call)] && s.core == FRESH_CORE.(hasConn := true)
  {
    s := Init(interval, maxMissed);
    assert Exec(s, []) == Some(s);
    hide Reachable, Backoff.Delay, AckLane.Apply, AckLane.Enabled;
    s := Go(s, Begin(true));
    s := Go(s, CheckContext);
    s := Go(s, ClearFlag);
    s := Go(s, DialSucceeds);
    s := Go(s, SetUp);
    s := Go(s, Subscribe(r));
  }

  lemma ConnectedOnce(interval: int, maxMissed: int) returns (s: State)
    requires interval > 0 && maxMissed > 0
    ensures Reachable(s) && s.at.pc.Steady? && s.at.forever && s.core.connected && s.loops.reading
            && !s.core.stopReconnect
  {
    hide Reachable, AckLane.Apply, AckLane.Enabled, SubPhase, Succeeded;
    var r := "subscribe";
    assert !IsHeartbeat(r) by {
      assert r[0] != HEARTBEAT_PREFIX[0];
    }
    s := SubscriptionSent(interval, maxMissed, r);
    s := FrameSent(s, r);
    s := AckReturned(s, r);
    s := Confirm(s);
  }

  lemma Confirm(s: State) returns (s': State)
    requires Reachable(s) && s.at.pc.AwaitingSubscribe? && s.at.forever && s.loops.reading
             && s.core == FRESH_CORE.(hasConn := true)
    requires SubPhase(s).Some? && Succeeded(SubPhase(s).value)
    ensures Reachable(s') && s'.at.pc.Steady? && s'.at.forever && s'.core.connected && s'.loops.reading
            && !s'.core.stopReconnect
  {
    hide Reachable, SubPhase, Succeeded;
    s' := Go(s, SubscribeOk);
    s' := Go(s', MarkConnected);
    s' := Go(s', Notify);
  }

  lemma Cancelled(s: State) returns (s': State)
    requires Reachable(s) && s.at.pc.Steady? && s.at.forever && s.core.connected && s.loops.reading
             && !s.core.stopReconnect
    ensures Reachable(s') && s'.at.pc.Stopped? && s'.core.connected && !s'.core.stopReconnect
  {
    hide Reachable, Backoff.Delay;
    s' := GoOutside(s, CancelContext);
    s' := GoOutside(s', EndRead);
    s' := Go(s', SeeReadEnded);
    s' := Go(s', TearDown);
    s' := Go(s', CheckDeferred);
    s' := Go(s', Return);
  }

  lemma NoDial(s: State) returns (s': State)
    requires Reachable(s) && s.at.pc.Stopped? && s.core.connected && !s.core.stopReconnect
    ensures Reachable(s') && s'.at.pc.Returning? && s'.at.forever && !s'.at.ctxDone && s'.core.connected
            && !s'.core.stopReconnect
  {
    hide Reachable;
    s' := Go(s, Begin(true));
    s' := Go(s', CheckContext);
    s' := Go(s', ClearFlag);
    s' := Go(s', DialFails);
  }

  /** Why BackoffRecordedState has its exception. */
  lemma RestartBacksOffConnected(interval: int, maxMissed: int) returns (s: State)
    requires interval > 0 && maxMissed > 0
    ensures Reachable(s) && s.at.pc.BackingOff? && s.core.connected
  {
    s := ConnectedOnce(interval, maxMissed);
    s := Cancelled(s);
    s := NoDial(s);
    hide Reachable, Backoff.Delay;
    s := Go(s, Return);
    s := Go(s, CheckStop);
    s := Go(s, ReadConnected);
  }
}
