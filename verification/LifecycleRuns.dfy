/** The ack lanes and subscriptions inside the client, and the invariant of every run. */
module LifecycleRuns {
  import opened Wrappers
  import opened ClientCore
  import opened Backoff
  import opened Lifecycle
  import opened LifecycleInvariants
  import AckLane
  import AckProtocol

  // ---- The lanes inside the client ----

  /** A lane of the client is a lane that the ack protocol can reach, and logs only acks of its own req_id. */
  ghost predicate LaneOk(reqId: string, l: AckLane.Lane) {
    AckProtocol.Reachable(l) && forall k :: 0 <= k < |l.log| ==> l.log[k].reqId == reqId
  }

  ghost predicate LanesOk(lanes: map<string, AckLane.Lane>) {
    forall r :: r in lanes ==> LaneOk(r, lanes[r])
  }

  lemma LogMoves(l: AckLane.Lane, step: AckLane.Step)
    requires AckLane.Enabled(l, step)
    ensures AckLane.Apply(l, step).log == if step.Dispatch? then l.log + [step.ack] else l.log
  {
  }

  lemma LaneStepKeeps(reqId: string, l: AckLane.Lane, step: AckLane.Step)
    requires LaneOk(reqId, l) && AckLane.Enabled(l, step)
    requires step.Dispatch? ==> step.ack.reqId == reqId
    ensures LaneOk(reqId, AckLane.Apply(l, step))
  {
    hide AckProtocol.Reachable, AckLane.Apply, AckLane.Enabled;
    AckProtocol.StepReachable(l, step);
    LogMoves(l, step);
  }

  lemma EmptyLaneOk(reqId: string)
    ensures LaneOk(reqId, AckLane.EMPTY_LANE)
  {
    hide AckProtocol.Reachable;
    AckProtocol.StartReachable();
  }

  /** The lanes after a step: as before, or with one lane moved by one of its own steps. */
  predicate LaneMove(lanes: map<string, AckLane.Lane>, lanes': map<string, AckLane.Lane>, reqId: string,
      ls: AckLane.Step) {
    || lanes' == lanes
    || (AckLane.Enabled(LaneOf(lanes, reqId), ls)
        && lanes' == lanes[reqId := AckLane.Apply(LaneOf(lanes, reqId), ls)]
        && (ls.Dispatch? ==> ls.ack.reqId == reqId))
  }

  lemma LoopLanes(s: State, step: Step)
    requires LoopStep(step) && LoopEnabled(s, step)
    ensures ApplyLoop(s, step).lanes == s.lanes
  {
  }

  lemma RunLanes(s: State, step: Step)
    requires RunStep(step) && RunEnabled(s, step)
    ensures var lanes' := ApplyRun(s, step).lanes;
            lanes' == if step.Subscribe? then
                        s.lanes[step.reqId := AckLane.Apply(LaneOf(s.lanes, step.reqId), AckLane.Call)]
                      else s.lanes
  {
  }

  lemma FrameLanes(s: State, frame: Frame)
    ensures var lanes' := ApplyFrame(s, frame).lanes;
            lanes' == if frame.AckFrame? then
                        var ack := frame.ack;
                        s.lanes[ack.reqId := AckLane.ApplyDispatch(LaneOf(s.lanes, ack.reqId), ack, Claimable(ack))]
                      else s.lanes
  {
  }

  lemma OutsideLanes(s: State, step: Step)
    requires !LoopStep(step) && !RunStep(step) && OutsideEnabled(s, step) && !step.DispatchFrame?
    ensures var lanes' := ApplyOutside(s, step).lanes;
            lanes' == if step.LaneStep? then s.lanes[step.reqId := AckLane.Apply(LaneOf(s.lanes, step.reqId), step.step)]
                      else s.lanes
  {
  }

  predicate Claimable(ack: AckLane.Ack) {
    !IsHeartbeat(ack.reqId) && ack.reqId != ""
  }

  lemma CallIsEnabled(l: AckLane.Lane)
    ensures AckLane.Enabled(l, AckLane.Call)
  {
  }

  lemma DispatchIsEnabled(l: AckLane.Lane, ack: AckLane.Ack, claimable: bool)
    ensures var ls := AckLane.Dispatch(ack, claimable);
            AckLane.Enabled(l, ls) && AckLane.Apply(l, ls) == AckLane.ApplyDispatch(l, ack, claimable)
  {
  }

  /** A step changes at most one lane, and that by a step of the lane. */
  lemma LanesMove(s: State, step: Step) returns (reqId: string, ls: AckLane.Step)
    requires Enabled(s, step)
    ensures LaneMove(s.lanes, Apply(s, step).lanes, reqId, ls)
  {
    hide ApplyLoop, ApplyRun, ApplyOutside, LoopEnabled, RunEnabled, LaneOf, AckLane.Apply, AckLane.Enabled;
    reqId, ls := "", AckLane.Call;
    if LoopStep(step) {
      LoopLanes(s, step);
    } else if RunStep(step) {
      RunLanes(s, step);
      if step.Subscribe? {
        reqId := step.reqId;
        CallIsEnabled(LaneOf(s.lanes, reqId));
      }
    } else if step.DispatchFrame? {
      reqId, ls := FrameMove(s, step);
    } else {
      OutsideLanes(s, step);
      if step.LaneStep? {
        reqId, ls := step.reqId, step.step;
      }
    }
  }

  lemma FrameMove(s: State, step: Step) returns (reqId: string, ls: AckLane.Step)
    requires step.DispatchFrame? && OutsideEnabled(s, step)
    ensures LaneMove(s.lanes, ApplyOutside(s, step).lanes, reqId, ls)
  {
    hide ApplyFrame, LaneOf, AckLane.Apply, AckLane.Enabled;
    reqId, ls := "", AckLane.Call;
    FrameLanes(s, step.frame);
    if step.frame.AckFrame? {
      var ack := step.frame.ack;
      reqId, ls := ack.reqId, AckLane.Dispatch(ack, Claimable(ack));
      DispatchIsEnabled(LaneOf(s.lanes, reqId), ack, Claimable(ack));
    }
  }

  lemma LanesKeep(lanes: map<string, AckLane.Lane>, lanes': map<string, AckLane.Lane>, reqId: string, ls: AckLane.Step)
    requires LanesOk(lanes) && LaneMove(lanes, lanes', reqId, ls)
    ensures LanesOk(lanes')
  {
    hide LaneOk, AckLane.Apply, AckLane.Enabled;
    EmptyLaneOk(reqId);
    if lanes' != lanes {
      LaneStepKeeps(reqId, LaneOf(lanes, reqId), ls);
    }
  }

  // ---- Subscriptions ----

  predicate Confirmed(lanes: map<string, AckLane.Lane>, sub: Sub) {
    PhaseOf(lanes, sub).Some? && Succeeded(PhaseOf(lanes, sub).value)
  }

  /** What SendAndWait has returned it does not take back. */
  lemma PhaseIsFinal(l: AckLane.Lane, step: AckLane.Step, i: nat)
    requires AckLane.Enabled(l, step) && i < |l.items| && l.items[i].phase.Returned?
    ensures var l' := AckLane.Apply(l, step); i < |l'.items| && l'.items[i].phase == l.items[i].phase
  {
    if AckLane.WorkerStep(step) {
      WorkerKeepsPhase(l, step, i);
      hide AckLane.ApplyWorker;
    } else {
      hide AckLane.ApplyWorker, AckLane.WorkerEnabled, AckLane.HonestAck;
    }
  }

  lemma WorkerKeepsPhase(l: AckLane.Lane, step: AckLane.Step, i: nat)
    requires AckLane.WorkerStep(step) && step.w < |l.workers| && AckLane.WorkerEnabled(l, step) && i < |l.items|
    ensures var l' := AckLane.ApplyWorker(l, step); i < |l'.items| && l'.items[i].phase == l.items[i].phase
  {
  }

  lemma ConfirmedMove(lanes: map<string, AckLane.Lane>, lanes': map<string, AckLane.Lane>,
                      reqId: string, ls: AckLane.Step, sub: Sub)
    requires LaneMove(lanes, lanes', reqId, ls) && Confirmed(lanes, sub)
    ensures Confirmed(lanes', sub)
  {
    hide AckLane.Apply, AckLane.Enabled;
    if lanes' != lanes && reqId == sub.reqId {
      PhaseIsFinal(LaneOf(lanes, reqId), ls, sub.item);
    }
  }

  lemma ConfirmedStays(s: State, step: Step, sub: Sub)
    requires Enabled(s, step) && Confirmed(s.lanes, sub)
    ensures Confirmed(Apply(s, step).lanes, sub)
  {
    hide Apply, Enabled, LaneMove, Confirmed;
    var reqId, ls := LanesMove(s, step);
    ConfirmedMove(s.lanes, Apply(s, step).lanes, reqId, ls, sub);
  }

  predicate BeforeConnected(pc: Pc) {
    pc.Dialing? || pc.SettingUp? || pc.Subscribing? || pc.AwaitingSubscribe? || pc.MarkingConnected?
  }

  /** The number of Connected callbacks made or about to be made. */
  function ConnectedCalls(pc: Pc, trace: seq<ConnState>): nat {
    (|trace| + 1) / 2 + if pc == Notifying(true) then 1 else 0
  }

  predicate AllConfirmed(lanes: map<string, AckLane.Lane>, subs: seq<Sub>) {
    forall k :: 0 <= k < |subs| ==> Confirmed(lanes, subs[k])
  }

  predicate SubOk(lanes: map<string, AckLane.Lane>, at: Control, call: CallLog, log: ClientLog) {
    && AllConfirmed(lanes, log.confirmed)
    && (at.pc.MarkingConnected? || call.runConnected ==> call.subscribed && Confirmed(lanes, at.sub))
    && (at.pc.AwaitingSubscribe? ==> call.subscribed)
    && (at.pc.Steady? || at.pc == Notifying(true) ==> call.runConnected)
    && (BeforeConnected(at.pc) ==> !call.runConnected)
    && ConnectedCalls(at.pc, log.trace) <= |log.confirmed|
  }

  lemma SubLoop(s: State, step: Step)
    requires SubOk(s.lanes, s.at, s.call, s.log) && LoopStep(step) && LoopEnabled(s, step)
    ensures var s' := ApplyLoop(s, step); SubOk(s.lanes, s'.at, s'.call, s'.log)
  {
    hide Delay, Confirmed, AllConfirmed;
  }

  lemma SubMarkConnected(s: State)
    requires SubOk(s.lanes, s.at, s.call, s.log) && RunEnabled(s, MarkConnected)
    ensures var s' := ApplyRun(s, MarkConnected); SubOk(s.lanes, s'.at, s'.call, s'.log)
  {
  }

  lemma SubNotify(s: State)
    requires SubOk(s.lanes, s.at, s.call, s.log) && RunEnabled(s, Notify)
    requires TraceOk(s.at.pc, s.core.connected, s.log.trace)
    ensures var s' := ApplyRun(s, Notify); SubOk(s.lanes, s'.at, s'.call, s'.log)
  {
  }

  /** The steps of Run that are not about being connected. */
  lemma SubQuiet(s: State, step: Step)
    requires RunStep(step) && RunEnabled(s, step) && !step.SubscribeOk? && !step.MarkConnected? && !step.Notify?
    ensures var s' := ApplyRun(s, step);
            && s'.log.trace == s.log.trace && s'.log.confirmed == s.log.confirmed
            && s'.call.runConnected == s.call.runConnected && (s.call.subscribed ==> s'.call.subscribed)
            && (s'.at.pc.AwaitingSubscribe? ==> s'.call.subscribed) && !s'.at.pc.Steady?
            && !s'.at.pc.MarkingConnected? && s'.at.pc != Notifying(true) && s.at.pc != Notifying(true)
            && (BeforeConnected(s'.at.pc) ==> BeforeConnected(s.at.pc))
            && (s'.at.sub == s.at.sub || BeforeConnected(s.at.pc))
  {
  }

  lemma SubRun(s: State, step: Step)
    requires SubOk(s.lanes, s.at, s.call, s.log) && RunStep(step) && RunEnabled(s, step)
    requires TraceOk(s.at.pc, s.core.connected, s.log.trace)
    ensures var s' := ApplyRun(s, step); SubOk(s.lanes, s'.at, s'.call, s'.log)
  {
    if step.SubscribeOk? {
      assert Confirmed(s.lanes, s.at.sub);
      hide Succeeded, PhaseOf, AllConfirmed, Confirmed, Alternating;
    } else if step.MarkConnected? {
      SubMarkConnected(s);
      hide SubOk, TraceOk;
    } else if step.Notify? {
      SubNotify(s);
      hide SubOk, TraceOk;
    } else {
      SubQuiet(s, step);
      hide ApplyRun, RunEnabled, RunStep, TraceOk, AllConfirmed, Confirmed, BeforeConnected;
    }
  }

  lemma SubKeeps(s: State, step: Step)
    requires SubOk(s.lanes, s.at, s.call, s.log) && Enabled(s, step)
    requires TraceOk(s.at.pc, s.core.connected, s.log.trace)
    ensures var s' := Apply(s, step); SubOk(s'.lanes, s'.at, s'.call, s'.log)
  {
    hide Confirmed, AllConfirmed, ApplyLoop, ApplyRun, ApplyOutside, LoopEnabled, RunEnabled, OutsideEnabled;
    var s' := Apply(s, step);
    if LoopStep(step) {
      SubLoop(s, step);
    } else if RunStep(step) {
      SubRun(s, step);
    } else {
      OutsideFrame(s, step);
    }
    assert SubOk(s.lanes, s'.at, s'.call, s'.log);
    hide SubOk, Apply;
    forall sub | Confirmed(s.lanes, sub) ensures Confirmed(s'.lanes, sub) {
      ConfirmedStays(s, step, sub);
    }
    SubsStay(s.lanes, s'.lanes, s'.at, s'.call, s'.log);
  }

  lemma SubsStay(lanes: map<string, AckLane.Lane>, lanes': map<string, AckLane.Lane>,
                 at: Control, call: CallLog, log: ClientLog)
    requires SubOk(lanes, at, call, log)
    requires forall sub :: Confirmed(lanes, sub) ==> Confirmed(lanes', sub)
    ensures SubOk(lanes', at, call, log)
  {
  }

  predicate Distinct(subs: seq<Sub>) {
    forall j, k :: 0 <= j < k < |subs| ==> subs[j] != subs[k]
  }

  /** No subscription is confirmed twice. */
  predicate OnceOk(at: Control, confirmed: seq<Sub>) {
    Distinct(confirmed) && (at.pc.AwaitingSubscribe? || at.pc.MarkingConnected? ==> at.sub !in confirmed)
  }

  lemma OnceLoop(s: State, step: Step)
    requires OnceOk(s.at, s.log.confirmed) && LoopStep(step) && LoopEnabled(s, step)
    ensures var s' := ApplyLoop(s, step); OnceOk(s'.at, s'.log.confirmed)
  {
    hide Delay, Distinct;
  }

  /** A call that has not been made yet has no result. */
  lemma NewIsUnconfirmed(lanes: map<string, AckLane.Lane>, subs: seq<Sub>, reqId: string)
    requires AllConfirmed(lanes, subs)
    ensures Sub(reqId, |LaneOf(lanes, reqId).items|) !in subs
  {
    hide Succeeded;
  }

  lemma OnceRun(s: State, step: Step)
    requires OnceOk(s.at, s.log.confirmed) && AllConfirmed(s.lanes, s.log.confirmed)
    requires RunStep(step) && RunEnabled(s, step)
    ensures var s' := ApplyRun(s, step); OnceOk(s'.at, s'.log.confirmed)
  {
    hide AllConfirmed, Succeeded, PhaseOf, LaneOf, AckLane.Apply;
    if step.Subscribe? {
      NewIsUnconfirmed(s.lanes, s.log.confirmed, step.reqId);
    }
  }

  lemma OnceKeeps(s: State, step: Step)
    requires OnceOk(s.at, s.log.confirmed) && AllConfirmed(s.lanes, s.log.confirmed) && Enabled(s, step)
    ensures var s' := Apply(s, step); OnceOk(s'.at, s'.log.confirmed)
  {
    hide AllConfirmed, Distinct, ApplyLoop, ApplyRun, ApplyOutside, LoopEnabled, RunEnabled, OutsideEnabled;
    if LoopStep(step) {
      OnceLoop(s, step);
    } else if RunStep(step) {
      OnceRun(s, step);
    } else {
      OutsideFrame(s, step);
    }
  }

  /** The call that the run waits for has been made. */
  predicate SubMade(lanes: map<string, AckLane.Lane>, at: Control) {
    at.pc.AwaitingSubscribe? ==> PhaseOf(lanes, at.sub).Some?
  }

  lemma ItemsStay(l: AckLane.Lane, step: AckLane.Step)
    requires AckLane.Enabled(l, step)
    ensures |l.items| <= |AckLane.Apply(l, step).items|
  {
    hide AckLane.HonestAck, AckLane.ApplyWorker, AckLane.WorkerEnabled;
    if AckLane.WorkerStep(step) {
      WorkerKeepsItems(l, step);
    }
  }

  lemma WorkerKeepsItems(l: AckLane.Lane, step: AckLane.Step)
    requires AckLane.WorkerStep(step) && step.w < |l.workers| && AckLane.WorkerEnabled(l, step)
    ensures |AckLane.ApplyWorker(l, step).items| == |l.items|
  {
  }

  lemma CallsStay(lanes: map<string, AckLane.Lane>, lanes': map<string, AckLane.Lane>,
                  reqId: string, ls: AckLane.Step, sub: Sub)
    requires LaneMove(lanes, lanes', reqId, ls) && PhaseOf(lanes, sub).Some?
    ensures PhaseOf(lanes', sub).Some?
  {
    hide AckLane.Apply, AckLane.Enabled;
    if lanes' != lanes {
      ItemsStay(LaneOf(lanes, reqId), ls);
    }
  }

  lemma LoopSubMade(s: State, step: Step)
    requires LoopStep(step) && LoopEnabled(s, step)
    ensures !ApplyLoop(s, step).at.pc.AwaitingSubscribe?
  {
    hide Delay;
  }

  lemma RunSubMade(s: State, step: Step)
    requires RunStep(step) && RunEnabled(s, step)
    ensures var s' := ApplyRun(s, step); SubMade(s'.lanes, s'.at)
  {
    hide Delay, Succeeded, LeaveBehind;
  }

  lemma SubMadeKeeps(s: State, step: Step)
    requires SubMade(s.lanes, s.at) && Enabled(s, step)
    ensures var s' := Apply(s, step); SubMade(s'.lanes, s'.at)
  {
    hide ApplyLoop, ApplyRun, ApplyOutside, LoopEnabled, RunEnabled, OutsideEnabled, PhaseOf, LaneMove;
    if LoopStep(step) {
      LoopSubMade(s, step);
    } else if RunStep(step) {
      RunSubMade(s, step);
    } else {
      OutsideFrame(s, step);
      var reqId, ls := LanesMove(s, step);
      if s.at.pc.AwaitingSubscribe? {
        CallsStay(s.lanes, Apply(s, step).lanes, reqId, ls, s.at.sub);
      }
    }
  }

  // ---- Over whole runs ----

  ghost predicate Inv(s: State) {
    && TraceOk(s.at.pc, s.core.connected, s.log.trace)
    && ConnOk(s.at.pc, s.core.hasConn, s.loops)
    && RestOk(s.at, s.core.connected, s.call)
    && BackoffOk(s.interval, s.at, s.core.connectedThisRun, s.call)
    && TakeoverOk(s.core.stopReconnect, s.at, s.call, s.log.takeovers)
    && BeatsOk(s.core.missedPongCount, s.maxMissed, s.log.beats)
    && SubOk(s.lanes, s.at, s.call, s.log)
    && OnceOk(s.at, s.log.confirmed)
    && SubMade(s.lanes, s.at)
    && LanesOk(s.lanes)
    && s.maxMissed > 0
  }

  lemma ConfigStays(s: State, step: Step)
    requires Enabled(s, step)
    ensures Apply(s, step).maxMissed == s.maxMissed && Apply(s, step).interval == s.interval
  {
    hide ApplyLoop, ApplyRun, ApplyOutside, LoopEnabled, RunEnabled, OutsideEnabled;
    if LoopStep(step) {
      LoopConfig(s, step);
    } else if RunStep(step) {
      RunFrame(s, step);
    } else {
      OutsideFrame(s, step);
    }
  }

  lemma LoopConfig(s: State, step: Step)
    requires LoopStep(step) && LoopEnabled(s, step)
    ensures var s' := ApplyLoop(s, step); s'.maxMissed == s.maxMissed && s'.interval == s.interval
  {
  }

  lemma InvKeeps(s: State, step: Step)
    requires Inv(s) && Enabled(s, step)
    ensures Inv(Apply(s, step))
  {
    assert AllConfirmed(s.lanes, s.log.confirmed);
    hide TraceOk, ConnOk, RestOk, BackoffOk, TakeoverOk, BeatsOk, SubOk, OnceOk, SubMade, LanesOk, AllConfirmed, Apply,
         Enabled;
    TraceKeeps(s, step);
    ConnKeeps(s, step);
    RestKeeps(s, step);
    BackoffKeeps(s, step);
    TakeoverKeeps(s, step);
    BeatsKeeps(s, step);
    SubKeeps(s, step);
    OnceKeeps(s, step);
    SubMadeKeeps(s, step);
    var reqId, ls := LanesMove(s, step);
    LanesKeep(s.lanes, Apply(s, step).lanes, reqId, ls);
    ConfigStays(s, step);
  }

  lemma {:induction false} RunInvariant(interval: int, maxMissed: int, run: seq<Step>)
    requires maxMissed > 0
    ensures var r := Exec(Init(interval, maxMissed), run); r.Some? ==> Inv(r.value)
  {
    hide Apply, Enabled;
    if run == [] {
      assert Alternating([]) && AttemptAfter([]) == 0;
      hide LaneOk;
    } else {
      RunInvariant(interval, maxMissed, run[..|run| - 1]);
      hide Inv;
      var r := Exec(Init(interval, maxMissed), run[..|run| - 1]);
      if r.Some? && Enabled(r.value, run[|run| - 1]) {
        InvKeeps(r.value, run[|run| - 1]);
      }
    }
  }

  lemma ReachableInv(s: State)
    requires Reachable(s)
    ensures Inv(s)
  {
    hide Inv;
    var run :| Exec(Init(s.interval, s.maxMissed), run) == Some(s);
    RunInvariant(s.interval, s.maxMissed, run);
  }
}
