/** Invariants of the client's life, one per concern; each is kept by every step. */
module LifecycleInvariants {
  import opened Wrappers
  import opened ClientCore
  import opened Backoff
  import opened Lifecycle
  import AckLane

  // ---- The fields under the lock ----

  /** The fields after a step: they change only in the critical sections of Client. */
  function CoreAfter(c: Core, maxMissed: int, step: Step): Core {
    match step
    case ClearFlag => NewRun(c)
    case SetUp => NewConnection(c)
    case TearDown => NoConnection(c)
    case MarkConnected => Transition(c, true)
    case MarkDisconnected => Transition(c, false)
    case HeartbeatTick(_) => ClientCore.Tick(c, maxMissed)
    case DispatchFrame(EventFrame(eventType)) => ControlEvent(c, eventType)
    case DispatchFrame(AckFrame(ack)) => if IsHeartbeat(ack.reqId) then HeartbeatAck(c, ack.errCode) else c
    case _ => c
  }

  lemma LoopCore(s: State, step: Step)
    requires LoopStep(step) && LoopEnabled(s, step)
    ensures ApplyLoop(s, step).core == CoreAfter(s.core, s.maxMissed, step)
  {
    hide Delay;
  }

  lemma RunCore(s: State, step: Step)
    requires RunStep(step) && RunEnabled(s, step)
    ensures ApplyRun(s, step).core == CoreAfter(s.core, s.maxMissed, step)
  {
    hide LaneOf, AckLane.Apply, Succeeded, SubPhase;
  }

  lemma FrameCore(s: State, frame: Frame)
    ensures ApplyFrame(s, frame).core == CoreAfter(s.core, s.maxMissed, DispatchFrame(frame))
  {
    hide LaneOf, AckLane.ApplyDispatch, IsHeartbeat;
  }

  lemma OutsideCore(s: State, step: Step)
    requires !LoopStep(step) && !RunStep(step) && OutsideEnabled(s, step)
    ensures ApplyOutside(s, step).core == CoreAfter(s.core, s.maxMissed, step)
  {
    hide LaneOf, AckLane.Apply, AckLane.Enabled, ApplyFrame;
    if step.DispatchFrame? {
      FrameCore(s, step.frame);
    }
  }

  lemma CoreMoves(s: State, step: Step)
    requires Enabled(s, step)
    ensures Apply(s, step).core == CoreAfter(s.core, s.maxMissed, step)
  {
    hide ApplyLoop, ApplyRun, ApplyOutside, LoopEnabled, RunEnabled, OutsideEnabled, CoreAfter;
    if LoopStep(step) {
      LoopCore(s, step);
    } else if RunStep(step) {
      RunCore(s, step);
    } else {
      OutsideCore(s, step);
    }
  }

  // ---- What the goroutines around the caller leave alone ----

  /** The caller's own state, and the log of notifications, are left alone; a takeover is never forgotten. */
  predicate LeavesCaller(s: State, s': State) {
    && s'.at == s.at.(ctxDone := s'.at.ctxDone) && (s.at.ctxDone ==> s'.at.ctxDone)
    && s'.call == s.call && s'.interval == s.interval && s'.maxMissed == s.maxMissed
    && s'.log.trace == s.log.trace && s'.log.confirmed == s.log.confirmed
    && s'.core.connected == s.core.connected && s'.core.connectedThisRun == s.core.connectedThisRun
    && (s.core.stopReconnect ==> s'.core.stopReconnect)
    && ((s.core.stopReconnect <==> s.log.takeovers > 0) ==>
          (s'.core.stopReconnect <==> s'.log.takeovers > 0))
  }

  lemma FrameFrame(s: State, frame: Frame)
    ensures LeavesCaller(s, ApplyFrame(s, frame))
  {
  }

  lemma OutsideFrame(s: State, step: Step)
    requires !LoopStep(step) && !RunStep(step) && OutsideEnabled(s, step)
    ensures LeavesCaller(s, ApplyOutside(s, step))
  {
    hide Delay, LaneOf, AckLane.Apply, AckLane.Enabled, ApplyFrame;
    if step.DispatchFrame? {
      FrameFrame(s, step.frame);
      hide LeavesCaller;
    }
  }

  /** A Run in progress: entered at Dialing, left at Returning. */
  predicate InRun(pc: Pc) {
    || pc.Dialing? || pc.SettingUp? || pc.Subscribing? || pc.AwaitingSubscribe? || pc.MarkingConnected?
    || pc.Notifying? || pc.Steady? || pc.TearingDown? || pc.CheckingContext? || pc.MarkingDisconnected?
    || pc.Returning?
  }

  lemma RunFrame(s: State, step: Step)
    requires RunStep(step) && RunEnabled(s, step)
    ensures var s' := ApplyRun(s, step);
            && InRun(s.at.pc) && InRun(s'.at.pc) && !s.at.pc.Returning?
            && s'.at.forever == s.at.forever && s'.at.ctxDone == s.at.ctxDone && s'.at.attempt == s.at.attempt
            && s'.call.result == s.call.result && s'.call.stopAtReturn == s.call.stopAtReturn
            && s'.call.runs == s.call.runs && s'.call.waits == s.call.waits && s'.call.starts == s.call.starts
            && s'.interval == s.interval && s'.maxMissed == s.maxMissed
            && s'.core.stopReconnect == s.core.stopReconnect && s'.log.takeovers == s.log.takeovers
            && (s.call.runConnected == s.core.connectedThisRun ==>
                  s'.call.runConnected == s'.core.connectedThisRun)
  {
    hide Delay, Succeeded, SubPhase, LaneOf, AckLane.Apply, AckLane.Enabled, HeartbeatAck;
  }

  // ---- Notifications ----

  predicate Alternating(trace: seq<ConnState>) {
    forall k :: 0 <= k < |trace| ==> trace[k] == if k % 2 == 0 then Connected else Disconnected
  }

  predicate TraceOk(pc: Pc, connected: bool, trace: seq<ConnState>) {
    && Alternating(trace)
    && (pc.Notifying? ==> pc.connected == connected)
    && (|trace| % 2 == 1 <==> if pc.Notifying? then !connected else connected)
  }

  lemma TraceLoop(s: State, step: Step)
    requires TraceOk(s.at.pc, s.core.connected, s.log.trace) && LoopStep(step) && LoopEnabled(s, step)
    ensures var s' := ApplyLoop(s, step); TraceOk(s'.at.pc, s'.core.connected, s'.log.trace)
  {
  }

  /** A callback is announced when the state flips, and made in the next step. */
  lemma RunTrace(s: State, step: Step)
    requires RunStep(step) && RunEnabled(s, step)
    ensures var s' := ApplyRun(s, step);
            if s.at.pc.Notifying? then
              && s'.core.connected == s.core.connected && !s'.at.pc.Notifying?
              && s'.log.trace == s.log.trace + [if s.at.pc.connected then Connected else Disconnected]
            else
              && s'.log.trace == s.log.trace
              && (if s'.at.pc.Notifying? then s'.at.pc.connected == s'.core.connected != s.core.connected
                  else s'.core.connected == s.core.connected)
  {
    hide Delay, Succeeded, SubPhase, PhaseOf, LaneOf, AckLane.Apply, AckLane.Enabled, LeaveBehind;
  }

  lemma TraceRun(s: State, step: Step)
    requires TraceOk(s.at.pc, s.core.connected, s.log.trace) && RunStep(step) && RunEnabled(s, step)
    ensures var s' := ApplyRun(s, step); TraceOk(s'.at.pc, s'.core.connected, s'.log.trace)
  {
    hide ApplyRun, RunEnabled, RunStep;
    RunTrace(s, step);
  }

  lemma TraceKeeps(s: State, step: Step)
    requires TraceOk(s.at.pc, s.core.connected, s.log.trace) && Enabled(s, step)
    ensures var s' := Apply(s, step); TraceOk(s'.at.pc, s'.core.connected, s'.log.trace)
  {
    hide ApplyLoop, ApplyRun, ApplyOutside, LoopEnabled, RunEnabled, OutsideEnabled;
    if LoopStep(step) {
      TraceLoop(s, step);
    } else if RunStep(step) {
      TraceRun(s, step);
    } else {
      OutsideFrame(s, step);
    }
  }

  // ---- The connection ----

  /** Between set-up and tear-down of a Run. */
  predicate Online(pc: Pc) {
    || pc.Subscribing? || pc.AwaitingSubscribe? || pc.MarkingConnected? || pc == Notifying(true) || pc.Steady?
    || pc.TearingDown?
  }

  /** The client has a connection exactly while online, and only then does the run have loops of its own. */
  predicate ConnOk(pc: Pc, hasConn: bool, loops: Loops) {
    && (hasConn <==> Online(pc))
    && (loops.reading || loops.beating ==> hasConn)
    && (Online(pc) ==> (loops.reading <==> !loops.readEnded))
  }

  lemma ConnLoop(s: State, step: Step)
    requires ConnOk(s.at.pc, s.core.hasConn, s.loops) && LoopStep(step) && LoopEnabled(s, step)
    ensures var s' := ApplyLoop(s, step); ConnOk(s'.at.pc, s'.core.hasConn, s'.loops)
  {
  }

  /** Set-up makes the connection and the loops, tear-down leaves them, and the other steps of Run keep them. */
  lemma RunConn(s: State, step: Step)
    requires RunStep(step) && RunEnabled(s, step)
    ensures var s' := ApplyRun(s, step);
            && (Online(s'.at.pc) <==> step.SetUp? || (Online(s.at.pc) && !step.TearDown?))
            && (if step.SetUp? then s'.core.hasConn && s'.loops.reading && !s'.loops.readEnded
                else if step.TearDown? then !s'.core.hasConn && !s'.loops.reading && !s'.loops.beating
                else s'.core.hasConn == s.core.hasConn && s'.loops == s.loops)
  {
    hide Delay, Succeeded, SubPhase, PhaseOf, LaneOf, AckLane.Apply, AckLane.Enabled;
  }

  lemma ConnRun(s: State, step: Step)
    requires ConnOk(s.at.pc, s.core.hasConn, s.loops) && RunStep(step) && RunEnabled(s, step)
    ensures var s' := ApplyRun(s, step); ConnOk(s'.at.pc, s'.core.hasConn, s'.loops)
  {
    hide ApplyRun, RunEnabled, RunStep, Online;
    RunConn(s, step);
  }

  lemma ConnOutside(s: State, step: Step)
    requires ConnOk(s.at.pc, s.core.hasConn, s.loops) && !LoopStep(step) && !RunStep(step) && OutsideEnabled(s, step)
    ensures var s' := ApplyOutside(s, step); ConnOk(s'.at.pc, s'.core.hasConn, s'.loops)
  {
    hide LaneOf, AckLane.Apply, AckLane.Enabled, AckLane.ApplyDispatch, IsHeartbeat;
  }

  lemma ConnKeeps(s: State, step: Step)
    requires ConnOk(s.at.pc, s.core.hasConn, s.loops) && Enabled(s, step)
    ensures var s' := Apply(s, step); ConnOk(s'.at.pc, s'.core.hasConn, s'.loops)
  {
    hide ApplyLoop, ApplyRun, ApplyOutside, LoopEnabled, RunEnabled, OutsideEnabled;
    if LoopStep(step) {
      ConnLoop(s, step);
    } else if RunStep(step) {
      ConnRun(s, step);
    } else {
      ConnOutside(s, step);
    }
  }

  // ---- The recorded state between runs ----

  predicate BetweenRuns(pc: Pc) {
    pc.Top? || pc.ClearingFlag? || pc.Dialing? || pc.CheckingStop? || pc.ReadingConnected? || pc.BackingOff?
  }

  /** Between runs the client is recorded connected only if it was so from the start and nothing has been dialled. */
  predicate RestOk(at: Control, connected: bool, call: CallLog) {
    && (BetweenRuns(at.pc) ==> (connected <==> call.startedConnected && !call.dialled))
    && (at.pc.Returning? && !call.dialled ==> connected == call.startedConnected)
    && (at.pc.Returning? && call.dialled ==> !connected || at.ctxDone)
    && (at.pc.Notifying? && !at.pc.connected ==> !connected)
    && (!BetweenRuns(at.pc) && !at.pc.Returning? && !at.pc.Stopped? ==> call.dialled)
  }

  lemma RestLoop(s: State, step: Step)
    requires RestOk(s.at, s.core.connected, s.call) && LoopStep(step) && LoopEnabled(s, step)
    ensures var s' := ApplyLoop(s, step); RestOk(s'.at, s'.core.connected, s'.call)
  {
  }

  lemma RestRun(s: State, step: Step)
    requires RestOk(s.at, s.core.connected, s.call) && RunStep(step) && RunEnabled(s, step)
    ensures var s' := ApplyRun(s, step); RestOk(s'.at, s'.core.connected, s'.call)
  {
    hide Delay, Succeeded, SubPhase, PhaseOf, LaneOf, AckLane.Apply, AckLane.Enabled, LeaveBehind;
  }

  lemma RestKeeps(s: State, step: Step)
    requires RestOk(s.at, s.core.connected, s.call) && Enabled(s, step)
    ensures var s' := Apply(s, step); RestOk(s'.at, s'.core.connected, s'.call)
  {
    hide ApplyLoop, ApplyRun, ApplyOutside, LoopEnabled, RunEnabled, OutsideEnabled;
    if LoopStep(step) {
      RestLoop(s, step);
    } else if RunStep(step) {
      RestRun(s, step);
    } else {
      OutsideFrame(s, step);
    }
  }

  // ---- Backoff ----

  /** The attempt number after the given runs, each connected or not. */
  function AttemptAfter(runs: seq<bool>): int {
    if runs == [] then 0
    else (if runs[|runs| - 1] then 0 else AttemptAfter(runs[..|runs| - 1])) + 1
  }

  predicate WaitsOk(interval: int, runs: seq<bool>, waits: seq<int>) {
    && |waits| <= |runs|
    && forall n :: 0 <= n < |waits| ==> waits[n] == Delay(interval, AttemptAfter(runs[..n + 1]))
  }

  predicate Deciding(pc: Pc) {
    pc.CheckingStop? || pc.ReadingConnected?
  }

  predicate FlagIsStale(pc: Pc) {
    pc.BackingOff? || pc.Top? || pc.ClearingFlag?
  }

  predicate BackoffOk(interval: int, at: Control, connectedThisRun: bool, call: CallLog) {
    && WaitsOk(interval, call.runs, call.waits) && (Deciding(at.pc) ==> at.forever)
    && (at.forever && !at.pc.Stopped? ==>
          && |call.waits| == |call.runs| - (if Deciding(at.pc) then 1 else 0)
          && at.attempt == AttemptAfter(call.runs[..|call.waits|])
          && (Deciding(at.pc) ==> call.runs[|call.runs| - 1] == connectedThisRun)
          && (!Deciding(at.pc) && !FlagIsStale(at.pc) ==> call.runConnected == connectedThisRun))
  }

  lemma WaitsSnoc(interval: int, runs: seq<bool>, waits: seq<int>, connected: bool)
    requires WaitsOk(interval, runs, waits)
    ensures WaitsOk(interval, runs + [connected], waits)
    ensures (runs + [connected])[..|waits|] == runs[..|waits|]
  {
    forall n | 0 <= n < |waits|
      ensures waits[n] == Delay(interval, AttemptAfter((runs + [connected])[..n + 1]))
    {
      assert (runs + [connected])[..n + 1] == runs[..n + 1];
    }
  }

  lemma NextWait(interval: int, runs: seq<bool>, waits: seq<int>, attempt: int)
    requires WaitsOk(interval, runs, waits) && |waits| == |runs| - 1 && attempt == AttemptAfter(runs[..|waits|])
    ensures var next := (if runs[|runs| - 1] then 0 else attempt) + 1;
            && next == AttemptAfter(runs)
            && WaitsOk(interval, runs, waits + [Delay(interval, next)])
  {
    assert runs[..|runs| - 1] == runs[..|waits|];
    var next := AttemptAfter(runs);
    var waits' := waits + [Delay(interval, next)];
    forall n | 0 <= n < |waits'| ensures waits'[n] == Delay(interval, AttemptAfter(runs[..n + 1])) {
      if n == |waits| {
        assert runs[..n + 1] == runs;
      }
    }
  }

  lemma BackoffReturn(s: State)
    requires BackoffOk(s.interval, s.at, s.core.connectedThisRun, s.call) && LoopEnabled(s, Return)
    ensures var s' := ApplyLoop(s, Return); BackoffOk(s'.interval, s'.at, s'.core.connectedThisRun, s'.call)
  {
    WaitsSnoc(s.interval, s.call.runs, s.call.waits, s.call.runConnected);
    hide WaitsOk, AttemptAfter, Delay;
  }

  lemma BackoffReadConnected(s: State)
    requires BackoffOk(s.interval, s.at, s.core.connectedThisRun, s.call) && LoopEnabled(s, ReadConnected)
    ensures var s' := ApplyLoop(s, ReadConnected); BackoffOk(s'.interval, s'.at, s'.core.connectedThisRun, s'.call)
  {
    NextWait(s.interval, s.call.runs, s.call.waits, s.at.attempt);
    assert s.call.runs[..|s.call.runs|] == s.call.runs;
    hide WaitsOk, AttemptAfter, Delay;
  }

  lemma BackoffLoop(s: State, step: Step)
    requires BackoffOk(s.interval, s.at, s.core.connectedThisRun, s.call) && LoopStep(step) && LoopEnabled(s, step)
    ensures var s' := ApplyLoop(s, step); BackoffOk(s'.interval, s'.at, s'.core.connectedThisRun, s'.call)
  {
    if step.Return? {
      BackoffReturn(s);
    } else if step.ReadConnected? {
      BackoffReadConnected(s);
    } else {
      var none: seq<bool> := [];
      assert WaitsOk(s.interval, none, []) && none[..0] == none && AttemptAfter(none) == 0;
      hide WaitsOk, AttemptAfter, Delay;
    }
  }

  lemma BackoffRun(s: State, step: Step)
    requires BackoffOk(s.interval, s.at, s.core.connectedThisRun, s.call) && RunStep(step) && RunEnabled(s, step)
    ensures var s' := ApplyRun(s, step); BackoffOk(s'.interval, s'.at, s'.core.connectedThisRun, s'.call)
  {
    hide ApplyRun, RunEnabled, RunStep, WaitsOk, AttemptAfter;
    RunFrame(s, step);
  }

  lemma BackoffKeeps(s: State, step: Step)
    requires BackoffOk(s.interval, s.at, s.core.connectedThisRun, s.call) && Enabled(s, step)
    ensures var s' := Apply(s, step); BackoffOk(s'.interval, s'.at, s'.core.connectedThisRun, s'.call)
  {
    hide ApplyLoop, ApplyRun, ApplyOutside, LoopEnabled, RunEnabled, OutsideEnabled;
    if LoopStep(step) {
      BackoffLoop(s, step);
    } else if RunStep(step) {
      BackoffRun(s, step);
    } else {
      OutsideFrame(s, step);
    }
  }

  // ---- Takeover ----

  predicate AfterCheck(pc: Pc) {
    pc.ReadingConnected? || pc.BackingOff? || pc.Top? || pc.ClearingFlag?
  }

  predicate NoneStopped(starts: seq<Start>) {
    forall k :: 0 <= k < |starts| ==> !starts[k].stopSet
  }

  /** Only the last Run can have been started after a takeover, and then only one that came between two Runs. */
  predicate StartsOk(starts: seq<Start>) {
    && (forall k :: 0 <= k < |starts| ==> !starts[k].stopSetAtReturn)
    && (forall k :: 0 <= k < |starts| - 1 ==> !starts[k].stopSet)
  }

  predicate TakeoverOk(stopReconnect: bool, at: Control, call: CallLog, takeovers: nat) {
    && (stopReconnect <==> takeovers > 0)
    && (call.stopAtReturn ==> stopReconnect)
    && StartsOk(call.starts) && (!stopReconnect ==> NoneStopped(call.starts))
    && (AfterCheck(at.pc) ==> !call.stopAtReturn && NoneStopped(call.starts))
    && (call.result == Some(ServerDisconnected) ==> stopReconnect)
    && (call.result == Some(ContextCancelled) ==> at.ctxDone)
    && (call.result == Some(RunEnded) ==> !at.forever)
    && (call.result.Some? ==> at.pc.Stopped?)
    && (!at.forever && !at.pc.Stopped? ==> !AfterCheck(at.pc) && !Deciding(at.pc))
  }

  lemma TakeoverLoop(s: State, step: Step)
    requires TakeoverOk(s.core.stopReconnect, s.at, s.call, s.log.takeovers) && LoopStep(step) && LoopEnabled(s, step)
    ensures var s' := ApplyLoop(s, step); TakeoverOk(s'.core.stopReconnect, s'.at, s'.call, s'.log.takeovers)
  {
    hide Delay, Succeeded, SubPhase, LaneOf, AckLane.Apply, AckLane.Enabled;
  }

  lemma TakeoverRun(s: State, step: Step)
    requires TakeoverOk(s.core.stopReconnect, s.at, s.call, s.log.takeovers) && RunStep(step) && RunEnabled(s, step)
    ensures var s' := ApplyRun(s, step); TakeoverOk(s'.core.stopReconnect, s'.at, s'.call, s'.log.takeovers)
  {
    hide ApplyRun, RunEnabled, RunStep, StartsOk, NoneStopped;
    RunFrame(s, step);
  }

  lemma TakeoverKeeps(s: State, step: Step)
    requires TakeoverOk(s.core.stopReconnect, s.at, s.call, s.log.takeovers) && Enabled(s, step)
    ensures var s' := Apply(s, step); TakeoverOk(s'.core.stopReconnect, s'.at, s'.call, s'.log.takeovers)
  {
    hide ApplyLoop, ApplyRun, ApplyOutside, LoopEnabled, RunEnabled, OutsideEnabled;
    if LoopStep(step) {
      TakeoverLoop(s, step);
    } else if RunStep(step) {
      TakeoverRun(s, step);
    } else {
      OutsideFrame(s, step);
      hide StartsOk, NoneStopped;
    }
  }

  // ---- Heartbeat ----

  /** Ticks since the last reset. */
  function Unanswered(beats: seq<Beat>): nat {
    if beats == [] then 0 else
    match beats[|beats| - 1]
    case Reset => 0
    case Tick => Unanswered(beats[..|beats| - 1]) + 1
    case Close => Unanswered(beats[..|beats| - 1])
  }

  predicate BeatAt(beats: seq<Beat>, maxMissed: int, k: nat)
    requires k < |beats|
  {
    && (beats[k].Tick? ==> Unanswered(beats[..k]) < maxMissed)
    && (beats[k].Close? ==> Unanswered(beats[..k]) == maxMissed)
  }

  predicate BeatsOk(missedPongCount: int, maxMissed: int, beats: seq<Beat>) {
    && missedPongCount == Unanswered(beats) <= maxMissed
    && forall k :: 0 <= k < |beats| ==> BeatAt(beats, maxMissed, k)
  }

  lemma BeatsSnoc(missedPongCount: int, maxMissed: int, beats: seq<Beat>, b: Beat)
    requires BeatsOk(missedPongCount, maxMissed, beats)
    requires b.Tick? ==> missedPongCount < maxMissed
    requires b.Close? ==> missedPongCount == maxMissed
    requires maxMissed >= 0
    ensures BeatsOk(match b case Reset => 0 case Tick => missedPongCount + 1 case Close => missedPongCount,
                    maxMissed, beats + [b])
  {
    var beats' := beats + [b];
    forall k | 0 <= k < |beats'| ensures BeatAt(beats', maxMissed, k) {
      if k < |beats| {
        assert BeatAt(beats, maxMissed, k) && beats'[..k] == beats[..k];
      } else {
        assert beats'[..k] == beats;
      }
    }
    assert beats'[..|beats|] == beats;
  }

  /** The heartbeat log and counter move together: at set-up, at a tick of any loop, at a good heartbeat ack. */
  lemma BeatsKeeps(s: State, step: Step)
    requires BeatsOk(s.core.missedPongCount, s.maxMissed, s.log.beats) && s.maxMissed >= 0 && Enabled(s, step)
    ensures var s' := Apply(s, step); BeatsOk(s'.core.missedPongCount, s.maxMissed, s'.log.beats)
  {
    var n, max, beats := s.core.missedPongCount, s.maxMissed, s.log.beats;
    BeatsSnoc(n, max, beats, Reset);
    if n < max {
      BeatsSnoc(n, max, beats, Beat.Tick);
    } else {
      BeatsSnoc(n, max, beats, Close);
    }
    hide BeatsOk;
    BeatsMove(s, step);
  }

  /** What a step can do to the heartbeat counter and log. */
  predicate BeatMove(s: State, s': State) {
    var n, n', beats, beats' := s.core.missedPongCount, s'.core.missedPongCount, s.log.beats, s'.log.beats;
    || (n' == n && beats' == beats)
    || (n' == 0 && beats' == beats + [Reset])
    || (n' == n + 1 && beats' == beats + [Beat.Tick] && n < s.maxMissed)
    || (n' == n && beats' == beats + [Close] && n >= s.maxMissed)
  }

  lemma BeatsMove(s: State, step: Step)
    requires Enabled(s, step)
    ensures BeatMove(s, Apply(s, step))
  {
    hide ApplyLoop, ApplyRun, ApplyOutside, LoopEnabled, RunEnabled, OutsideEnabled;
    if LoopStep(step) {
      LoopBeats(s, step);
    } else if RunStep(step) {
      RunBeats(s, step);
    } else {
      OutsideBeats(s, step);
    }
  }

  lemma LoopBeats(s: State, step: Step)
    requires LoopStep(step) && LoopEnabled(s, step)
    ensures BeatMove(s, ApplyLoop(s, step))
  {
  }

  lemma RunBeats(s: State, step: Step)
    requires RunStep(step) && RunEnabled(s, step)
    ensures BeatMove(s, ApplyRun(s, step))
  {
  }

  lemma OutsideBeats(s: State, step: Step)
    requires !LoopStep(step) && !RunStep(step) && OutsideEnabled(s, step)
    ensures BeatMove(s, ApplyOutside(s, step))
  {
    hide Delay, Succeeded, SubPhase, LaneOf, AckLane.Apply, AckLane.Enabled, AckLane.ApplyDispatch, IsHeartbeat;
  }
}
