/** That Run and RunForever go on: where their own goroutine can be held up, and where its steps lead. */
module LifecycleProgress {
  import opened Wrappers
  import opened ClientCore
  import opened Backoff
  import opened Lifecycle
  import opened LifecycleInvariants
  import opened LifecycleRuns
  import opened LifecycleTheorems
  import opened LifecycleRestart
  import AckLane

  /** A step of the goroutine that called Run or RunForever. */
  predicate CallerStep(step: Step) {
    RunStep(step) || (LoopStep(step) && !step.Begin?)
  }

  predicate CallerOnly(run: seq<Step>) {
    forall k :: 0 <= k < |run| ==> CallerStep(run[k])
  }

  predicate RunOnly(run: seq<Step>) {
    forall k :: 0 <= k < |run| ==> RunStep(run[k])
  }

  ghost predicate CallerStuck(s: State) {
    forall step :: CallerStep(step) ==> !Enabled(s, step)
  }

  ghost predicate RunStuck(s: State) {
    forall step :: RunStep(step) ==> !Enabled(s, step)
  }

  /** SendAndWait has returned to the run that sent the subscription. */
  predicate SubscriptionReturned(s: State) {
    && s.at.sub.reqId in s.lanes && s.at.sub.item < |s.lanes[s.at.sub.reqId].items|
    && s.lanes[s.at.sub.reqId].items[s.at.sub.item].phase.Returned?
  }

  /** It has returned an ack with errcode 0. */
  predicate SubscriptionGranted(s: State) {
    && SubscriptionReturned(s)
    && var result := s.lanes[s.at.sub.reqId].items[s.at.sub.item].phase.result;
    result.Got? && result.outcome.Acked? && result.outcome.delivery.ack.errCode == 0
  }

  /** The run waits for its subscription or, once connected, for its read loop, which goes on reading. */
  predicate Waits(s: State) {
    s.loops.reading && (s.at.pc.Steady? || (s.at.pc.AwaitingSubscribe? && !SubscriptionReturned(s)))
  }

  // ---- The caller is held up exactly there ----

  lemma SubscriptionPhase(s: State)
    requires SubMade(s.lanes, s.at) && s.at.pc.AwaitingSubscribe?
    ensures SubPhase(s).Some?
    ensures SubPhase(s).value.Returned? <==> SubscriptionReturned(s)
    ensures SubPhase(s).value.Returned? && Succeeded(SubPhase(s).value) <==> SubscriptionGranted(s)
  {
  }

  /** Some step that is possible unless the run waits. */
  function NextStep(s: State): Step {
    match s.at.pc
    case Stopped => Begin(true)
    case Top => CheckContext
    case ClearingFlag => ClearFlag
    case Dialing => DialFails
    case SettingUp => SetUp
    case Subscribing => Subscribe("subscribe")
    case AwaitingSubscribe =>
      if s.loops.readEnded then SeeReadEnded else if SubscriptionGranted(s) then SubscribeOk else SubscribeFails
    case MarkingConnected => MarkConnected
    case Notifying(_) => Notify
    case Steady => SeeReadEnded
    case TearingDown => TearDown
    case CheckingContext => CheckDeferred
    case MarkingDisconnected => MarkDisconnected
    case Returning => Return
    case CheckingStop => CheckStop
    case ReadingConnected => ReadConnected
    case BackingOff => WaitOver
  }

  lemma NextIsEnabled(s: State)
    requires SubMade(s.lanes, s.at) && ConnOk(s.at.pc, s.core.hasConn, s.loops) && !s.at.pc.Stopped? && !Waits(s)
    ensures CallerStep(NextStep(s)) && Enabled(s, NextStep(s))
    ensures InRun(s.at.pc) && !s.at.pc.Returning? ==> RunStep(NextStep(s))
  {
    if s.at.pc.AwaitingSubscribe? {
      SubscriptionPhase(s);
    }
    hide SubPhase, SubscriptionReturned, SubscriptionGranted, Succeeded, SubMade;
  }

  lemma WaitingIsStuck(s: State, step: Step)
    requires SubMade(s.lanes, s.at) && ConnOk(s.at.pc, s.core.hasConn, s.loops) && Waits(s) && CallerStep(step)
    ensures !Enabled(s, step)
  {
    if s.at.pc.AwaitingSubscribe? {
      SubscriptionPhase(s);
    }
    hide SubPhase, SubscriptionReturned, SubscriptionGranted, Succeeded, SubMade;
  }

  /**
   In every reachable state of a call of Run or RunForever the calling goroutine can take a step, unless its read loop
   goes on and either SendAndWait has not returned from the subscription yet or the run is connected. Between calls
   either can be called.
   */
  lemma CallerBlocks(s: State)
    requires Reachable(s)
    ensures !s.at.pc.Stopped? ==>
              (CallerStuck(s) <==>
                 s.loops.reading && (s.at.pc.Steady? || (s.at.pc.AwaitingSubscribe? && !SubscriptionReturned(s))))
    ensures s.at.pc.Stopped? ==> forall forever :: Enabled(s, Begin(forever)) && !CallerStuck(Apply(s, Begin(forever)))
  {
    if s.at.pc.Stopped? {
      StoppedCanBegin(s);
    } else {
      CallingBlocks(s);
    }
  }

  lemma CallingBlocks(s: State)
    requires Reachable(s) && !s.at.pc.Stopped?
    ensures CallerStuck(s) <==> Waits(s)
  {
    ReachableInv(s);
    hide Reachable, Inv, Enabled, SubMade, ConnOk, NextStep;
    if Waits(s) {
      forall step | CallerStep(step) ensures !Enabled(s, step) {
        WaitingIsStuck(s, step);
      }
    } else {
      NextIsEnabled(s);
    }
  }

  lemma StoppedCanBegin(s: State)
    requires s.at.pc.Stopped?
    ensures forall forever :: Enabled(s, Begin(forever)) && !CallerStuck(Apply(s, Begin(forever)))
  {
    forall forever: bool ensures Enabled(s, Begin(forever)) && !CallerStuck(Apply(s, Begin(forever))) {
      var s' := Apply(s, Begin(forever));
      assert CallerStep(NextStep(s')) && Enabled(s', NextStep(s'));
    }
  }

  // ---- A Run comes to its end ----

  /** More than the number of steps that the caller can take without waiting, once the context is cancelled. */
  function Rank(pc: Pc): nat {
    match pc
    case Stopped => 0
    case Top => 1
    case Returning => 1
    case BackingOff => 2
    case Notifying(connected) => if connected then 7 else 2
    case ReadingConnected => 3
    case MarkingDisconnected => 3
    case CheckingStop => 4
    case CheckingContext => 4
    case TearingDown => 5
    case Steady => 6
    case MarkingConnected => 8
    case AwaitingSubscribe => 9
    case Subscribing => 10
    case SettingUp => 11
    case Dialing => 12
    case ClearingFlag => 13
  }

  lemma RunStepRank(s: State, step: Step)
    requires RunStep(step) && RunEnabled(s, step)
    ensures 1 <= Rank(ApplyRun(s, step).at.pc) < Rank(s.at.pc)
  {
    hide Delay, Succeeded, SubPhase, PhaseOf, LaneOf, AckLane.Apply, AckLane.Enabled, LeaveBehind;
  }

  lemma LoopStepRank(s: State, step: Step)
    requires LoopStep(step) && !step.Begin? && LoopEnabled(s, step) && s.at.ctxDone
    requires !s.at.forever ==> !AfterCheck(s.at.pc) && !Deciding(s.at.pc)
    ensures var s' := ApplyLoop(s, step);
            && Rank(s'.at.pc) < Rank(s.at.pc) && s'.at.ctxDone && s'.at.forever == s.at.forever
            && (!s.at.pc.CheckingStop? ==> !s'.at.pc.CheckingStop?)
            && (!s.at.pc.CheckingStop? && s'.at.pc.Stopped? ==>
                  s'.call.result == Some(if s.at.forever then ContextCancelled else RunEnded))
  {
    hide Delay;
  }

  /** A step of Run, seen from RunForever. */
  lemma RunStepIs(s: State, step: Step)
    requires RunStep(step) && Enabled(s, step)
    ensures Apply(s, step) == ApplyRun(s, step) && RunEnabled(s, step)
  {
  }

  lemma {:induction false} RunsShrink(s: State, run: seq<Step>)
    requires Reachable(s) && RunOnly(run) && Exec(s, run).Some?
    ensures var s' := Exec(s, run).value;
            Reachable(s') && |run| <= Rank(s.at.pc) - Rank(s'.at.pc) && (InRun(s.at.pc) ==> InRun(s'.at.pc))
  {
    hide Reachable, Enabled, Apply, Rank;
    if run == [] {
    } else {
      var s1, step := Exec(s, run[..|run| - 1]).value, run[|run| - 1];
      RunsShrink(s, run[..|run| - 1]);
      StepReachable(s1, step);
      RunStepIs(s1, step);
      RunStepRank(s1, step);
      RunFrame(s1, step);
    }
  }

  /**
   However a Run goes on by itself, it takes at most 11 more steps; where it can take none it returns, or else it waits
   while its read loop goes on reading, for the subscription or because it is connected.
   */
  lemma RunsEnd(s: State, run: seq<Step>)
    requires Reachable(s) && InRun(s.at.pc) && RunOnly(run) && Exec(s, run).Some?
    ensures |run| <= 11
    ensures var s' := Exec(s, run).value;
            RunStuck(s') ==>
              || s'.at.pc.Returning?
              || (s'.loops.reading && (s'.at.pc.Steady? || (s'.at.pc.AwaitingSubscribe? && !SubscriptionReturned(s'))))
  {
    hide Reachable, Enabled, Apply, SubscriptionReturned, RunStuck;
    RunsShrink(s, run);
    if RunStuck(Exec(s, run).value) {
      StuckRun(Exec(s, run).value);
    }
  }

  lemma StuckRun(s: State)
    requires Reachable(s) && InRun(s.at.pc) && RunStuck(s)
    ensures s.at.pc.Returning? || Waits(s)
  {
    ReachableInv(s);
    hide Reachable, Inv, Enabled, SubMade, ConnOk, NextStep, Waits;
    if !s.at.pc.Returning? && !Waits(s) {
      NextIsEnabled(s);
    }
  }

  /** A subscription that was not granted ends the run: how far it has come when nothing but its own steps follow. */
  lemma LeavingEnds(s: State, first: Step, rest: seq<Step>)
    requires Reachable(s) && s.at.pc.AwaitingSubscribe? && (first.SeeReadEnded? || first.SubscribeFails?)
    requires Enabled(s, first) && RunOnly(rest) && Exec(Apply(s, first), rest).Some?
    ensures var s' := Exec(Apply(s, first), rest).value;
            Reachable(s') && |rest| <= 4 && Leaving(s', s.log.trace) && InRun(s'.at.pc)
  {
    hide Reachable, Enabled, Apply, Leaving;
    StepReachable(s, first);
    RunStepIs(s, first);
    GivesUp(s, first);
    RunsShrink(Apply(s, first), rest);
    assert Return !in rest by {
      assert !RunStep(Return);
    }
    NoLateConnect(s, first, rest);
  }

  lemma GivesUp(s: State, first: Step)
    requires (first.SeeReadEnded? || first.SubscribeFails?) && RunEnabled(s, first)
    ensures ApplyRun(s, first).at.pc.TearingDown?
  {
  }

  /** A run that has given up is on its way out and cannot be held up. */
  lemma LeavingIsNotStuck(s: State, before: seq<ConnState>)
    requires Reachable(s) && Leaving(s, before) && RunStuck(s)
    ensures s.at.pc.Returning? && !s.core.hasConn
  {
    hide Reachable, RunStuck;
    StuckRun(s);
    ConnectionOwnedByRun(s);
  }

  lemma {:induction false} FirstEnabled(s: State, run: seq<Step>)
    requires run != [] && Exec(s, run).Some?
    ensures Enabled(s, run[0]) && Exec(s, run) == Exec(Apply(s, run[0]), run[1..])
  {
    hide Enabled, Apply;
    assert run == [run[0]] + run[1..];
    if |run| == 1 {
      assert run[..0] == [] && Exec(s, []) == Some(s);
    } else {
      FirstEnabled(s, run[..|run| - 1]);
    }
    ConsExec(s, run[0], run[1..]);
  }

  lemma FirstAwaits(s: State, first: Step)
    requires Reachable(s) && s.at.pc.AwaitingSubscribe? && SubscriptionReturned(s)
    requires RunStep(first) && Enabled(s, first)
    ensures !SubscriptionGranted(s) ==> first.SeeReadEnded? || first.SubscribeFails?
    ensures SubscriptionGranted(s) && s.loops.reading ==> first.SubscribeOk?
  {
    ReachableInv(s);
    SubscriptionPhase(s);
    hide Reachable, SubPhase, SubscriptionReturned, SubscriptionGranted, Succeeded;
  }

  /**
   A run whose subscription was refused, timed out or failed: whatever it does by itself, after at most five steps it
   returns, without a connection and without having reported Connected, although its read loop may go on.
   */
  lemma RefusedRunReturns(s: State, run: seq<Step>)
    requires Reachable(s) && s.at.pc.AwaitingSubscribe? && SubscriptionReturned(s) && !SubscriptionGranted(s)
    requires RunOnly(run) && Exec(s, run).Some?
    ensures var s' := Exec(s, run).value;
            && |run| <= 5 && !s'.call.runConnected && s.log.trace <= s'.log.trace
            && (forall k :: |s.log.trace| <= k < |s'.log.trace| ==> s'.log.trace[k] == Disconnected)
            && (RunStuck(s') ==> s'.at.pc.Returning? && !s'.core.hasConn)
  {
    hide Reachable, Enabled, Apply, RunStuck, SubscriptionReturned, SubscriptionGranted;
    if run == [] {
      Unconnected(s);
      if RunStuck(s) {
        StuckRun(s);
      }
    } else {
      var first, rest := run[0], run[1..];
      FirstEnabled(s, run);
      FirstAwaits(s, first);
      LeavingEnds(s, first, rest);
      var s' := Exec(s, run).value;
      if RunStuck(s') {
        LeavingIsNotStuck(s', s.log.trace);
      }
    }
  }

  lemma Unconnected(s: State)
    requires Reachable(s) && s.at.pc.AwaitingSubscribe?
    ensures !s.call.runConnected
  {
    ReachableInv(s);
    hide TraceOk, ConnOk, RestOk, BackoffOk, TakeoverOk, BeatsOk, OnceOk, LanesOk, AllConfirmed, Confirmed;
  }

  // ---- A granted subscription connects ----

  /** Where a run with a granted subscription stands after some steps of its own. */
  predicate Connecting(s: State, s': State) {
    && s'.loops == s.loops
    && (s'.at.pc.MarkingConnected? || s'.at.pc == Notifying(true) || s'.at.pc.Steady?)
    && (s'.at.pc.MarkingConnected? ==> s'.log.trace == s.log.trace && s'.core.connected == s.core.connected)
    && (!s'.at.pc.MarkingConnected? ==> s'.core.connected && s'.core.connectedThisRun && s'.call.runConnected)
    && (s'.at.pc == Notifying(true) ==> s'.log.trace == s.log.trace && !s.core.connected)
    && (s'.at.pc.Steady? ==> s'.log.trace == s.log.trace + if s.core.connected then [] else [Connected])
  }

  lemma ConnectingStep(s: State, s1: State, step: Step)
    requires Connecting(s, s1) && RunStep(step) && RunEnabled(s1, step) && s.loops.reading && !s.loops.readEnded
    ensures Connecting(s, ApplyRun(s1, step))
    ensures Rank(ApplyRun(s1, step).at.pc) < Rank(s1.at.pc)
  {
    hide Delay, Succeeded, SubPhase, PhaseOf, LaneOf, AckLane.Apply, AckLane.Enabled, LeaveBehind;
  }

  lemma {:induction false} ConnectingRun(s: State, s1: State, run: seq<Step>)
    requires Connecting(s, s1) && s.loops.reading && !s.loops.readEnded && RunOnly(run) && Exec(s1, run).Some?
    ensures Connecting(s, Exec(s1, run).value)
  {
    hide Enabled, Apply, Connecting;
    if run == [] {
    } else {
      ConnectingRun(s, s1, run[..|run| - 1]);
      var s2, step := Exec(s1, run[..|run| - 1]).value, run[|run| - 1];
      RunStepIs(s2, step);
      ConnectingStep(s, s2, step);
    }
  }

  lemma Granted(s: State)
    requires RunEnabled(s, SubscribeOk)
    ensures Connecting(s, ApplyRun(s, SubscribeOk)) && ApplyRun(s, SubscribeOk).at.pc.MarkingConnected?
  {
    hide Succeeded, SubPhase;
  }

  /**
   A run whose subscription was acknowledged with errcode 0, on a connection that is still being read: whatever it does
   by itself, after at most three steps it is connected, and has reported so if it had not been connected before.
   */
  lemma GrantedRunConnects(s: State, run: seq<Step>)
    requires Reachable(s) && s.at.pc.AwaitingSubscribe? && SubscriptionGranted(s) && s.loops.reading
    requires RunOnly(run) && Exec(s, run).Some?
    ensures |run| <= 3
    ensures var s' := Exec(s, run).value;
            RunStuck(s') ==>
              && s'.at.pc.Steady? && s'.core.connected && s'.core.connectedThisRun
              && s'.log.trace == s.log.trace + if s.core.connected then [] else [Connected]
  {
    hide Reachable, Enabled, Apply, RunStuck, SubscriptionReturned, SubscriptionGranted, Connecting, Rank;
    ReadingGoesOn(s);
    if run == [] {
      if RunStuck(s) {
        StuckRun(s);
        GrantedReturned(s);
      }
    } else {
      var first, rest := run[0], run[1..];
      GrantedReturned(s);
      FirstEnabled(s, run);
      FirstAwaits(s, first);
      RunStepIs(s, first);
      Granted(s);
      StepReachable(s, first);
      ConnectingRun(s, Apply(s, first), rest);
      RunsShrink(Apply(s, first), rest);
      ConnectingEnds(s, Exec(s, run).value);
      assert Rank(MarkingConnected) == 8 by { MarkingRank(); }
    }
  }

  lemma MarkingRank()
    ensures Rank(MarkingConnected) == 8
  {
  }

  lemma ReadingGoesOn(s: State)
    requires Reachable(s) && s.loops.reading
    ensures !s.loops.readEnded
  {
    ReachableInv(s);
    hide TraceOk, RestOk, BackoffOk, TakeoverOk, BeatsOk, SubOk, OnceOk, SubMade, LanesOk;
  }

  lemma GrantedReturned(s: State)
    requires SubscriptionGranted(s)
    ensures SubscriptionReturned(s)
  {
  }

  lemma ConnectingEnds(s: State, s': State)
    requires Connecting(s, s') && Reachable(s')
    ensures Rank(s'.at.pc) >= 6
    ensures RunStuck(s') ==>
              && s'.at.pc.Steady? && s'.core.connected && s'.core.connectedThisRun
              && s'.log.trace == s.log.trace + if s.core.connected then [] else [Connected]
  {
    hide Reachable, RunStuck;
    if RunStuck(s') {
      StuckRun(s');
    }
  }

  // ---- A dead connection is closed ----

  predicate TicksOnly(run: seq<Step>) {
    forall k :: 0 <= k < |run| ==> run[k] == HeartbeatTick(false)
  }

  lemma OneTick(s: State)
    requires s.loops.beating
    ensures Enabled(s, HeartbeatTick(false))
    ensures var s' := Apply(s, HeartbeatTick(false));
            if s.core.missedPongCount >= s.maxMissed then
              !s'.loops.beating && s'.log.beats == s.log.beats + [Close]
            else
              && s'.loops.beating && s'.maxMissed == s.maxMissed
              && s'.core.missedPongCount == s.core.missedPongCount + 1
              && s'.log.beats == s.log.beats + [Beat.Tick]
  {
  }

  /** If no heartbeat is acknowledged any more, the heartbeat loop closes the connection, just as the limit says. */
  lemma {:induction false} TicksClose(s: State, n: nat) returns (run: seq<Step>)
    requires s.loops.beating
    requires n == if s.core.missedPongCount < s.maxMissed then s.maxMissed - s.core.missedPongCount else 0
    ensures TicksOnly(run) && |run| == n + 1 && Exec(s, run).Some?
    ensures var s' := Exec(s, run).value;
            !s'.loops.beating && s'.log.beats == s.log.beats + seq(n, _ => Beat.Tick) + [Close]
    decreases n
  {
    hide Enabled, Apply;
    OneTick(s);
    assert Exec(s, []) == Some(s);
    if n == 0 {
      run := [HeartbeatTick(false)];
      assert run[..0] == [];
      assert s.log.beats + seq(0, _ => Beat.Tick) + [Close] == s.log.beats + [Close];
    } else {
      var rest := TicksClose(Apply(s, HeartbeatTick(false)), n - 1);
      run := [HeartbeatTick(false)] + rest;
      ConsExec(s, HeartbeatTick(false), rest);
      assert s.log.beats + [Beat.Tick] + seq(n - 1, _ => Beat.Tick) == s.log.beats + seq(n, _ => Beat.Tick);
    }
  }

  lemma {:induction false} ConsExec(s: State, step: Step, rest: seq<Step>)
    requires Enabled(s, step)
    ensures Exec(s, [step] + rest) == Exec(Apply(s, step), rest)
  {
    hide Enabled, Apply;
    var run := [step] + rest;
    assert Exec(s, []) == Some(s);
    if rest == [] {
      assert run[..0] == [] && run[0] == step;
    } else {
      assert run[..|run| - 1] == [step] + rest[..|rest| - 1] && run[|run| - 1] == rest[|rest| - 1];
      ConsExec(s, step, rest[..|rest| - 1]);
    }
  }

  // ---- RunForever between two runs, and after a cancellation ----

  /** Where RunForever stands k steps after a Run has returned to it, the context not being cancelled. */
  function AfterReturn(stop: bool): seq<Pc> {
    if stop then [Returning, CheckingStop, Stopped]
    else [Returning, CheckingStop, ReadingConnected, BackingOff, Top, ClearingFlag, Dialing]
  }

  lemma BetweenLoop(s: State, step: Step, k: nat)
    requires s.at.forever && !s.at.ctxDone && LoopStep(step) && !step.Begin? && LoopEnabled(s, step)
    requires k < 6 && k < |AfterReturn(s.core.stopReconnect)| && s.at.pc == AfterReturn(s.core.stopReconnect)[k]
    ensures k + 1 < |AfterReturn(s.core.stopReconnect)|
    ensures var s' := ApplyLoop(s, step);
            && s'.at.pc == AfterReturn(s.core.stopReconnect)[k + 1]
            && s'.at.forever && !s'.at.ctxDone && s'.core.stopReconnect == s.core.stopReconnect
            && s'.core.connectedThisRun == (s.core.connectedThisRun && k != 5)
            && (s'.at.pc.Stopped? ==> s'.call.result == Some(ServerDisconnected))
            && s'.call.waits ==
                 s.call.waits + (if s.at.pc.ReadingConnected? then
                                   [Delay(s.interval, (if s.core.connectedThisRun then 0 else s.at.attempt) + 1)] else [])
            && (k < 2 ==> s'.at.attempt == s.at.attempt) && s'.interval == s.interval
  {
    hide Delay;
  }

  lemma BetweenStep(s: State, step: Step, k: nat)
    requires s.at.forever && !s.at.ctxDone && CallerStep(step) && Enabled(s, step)
    requires k < 6 && k < |AfterReturn(s.core.stopReconnect)| && s.at.pc == AfterReturn(s.core.stopReconnect)[k]
    ensures k + 1 < |AfterReturn(s.core.stopReconnect)|
    ensures var s' := Apply(s, step);
            && s'.at.pc == AfterReturn(s.core.stopReconnect)[k + 1]
            && s'.at.forever && !s'.at.ctxDone && s'.core.stopReconnect == s.core.stopReconnect
            && s'.core.connectedThisRun == (s.core.connectedThisRun && k != 5)
            && (s'.at.pc.Stopped? ==> s'.call.result == Some(ServerDisconnected))
            && s'.call.waits ==
                 s.call.waits + (if s.at.pc.ReadingConnected? then
                                   [Delay(s.interval, (if s.core.connectedThisRun then 0 else s.at.attempt) + 1)] else [])
            && (k < 2 ==> s'.at.attempt == s.at.attempt) && s'.interval == s.interval
  {
    hide Delay, Apply, Enabled, ApplyLoop, LoopEnabled;
    if RunStep(step) {
      RunStepIs(s, step);
      RunFrame(s, step);
    } else {
      LoopStepIs(s, step);
      BetweenLoop(s, step, k);
    }
  }

  /**
   After a Run, nothing but steps of RunForever following and the context not cancelled: with a takeover it returns
   ErrServerDisconnected after two steps; without one it waits once and after six steps dials again.
   */
  lemma {:induction false} AfterRun(s: State, run: seq<Step>)
    requires s.at.pc.Returning? && s.at.forever && !s.at.ctxDone && CallerOnly(run) && |run| <= 6 && Exec(s, run).Some?
    ensures var s', pcs := Exec(s, run).value, AfterReturn(s.core.stopReconnect);
            && |run| < |pcs| && s'.at.pc == pcs[|run|] && s'.at.forever && !s'.at.ctxDone
            && s'.core.stopReconnect == s.core.stopReconnect && s'.interval == s.interval
            && (|run| < 6 ==> s'.core.connectedThisRun == s.core.connectedThisRun)
            && (|run| < 3 ==> s'.at.attempt == s.at.attempt)
            && (s'.at.pc.Stopped? ==> s'.call.result == Some(ServerDisconnected))
            && s'.call.waits ==
                 s.call.waits + (if |run| > 2 && !s.core.stopReconnect then
                                   [Delay(s.interval, (if s.core.connectedThisRun then 0 else s.at.attempt) + 1)] else [])
  {
    hide Apply, Enabled, Delay;
    if run == [] {
    } else {
      var init := run[..|run| - 1];
      AfterRun(s, init);
      BetweenStep(Exec(s, init).value, run[|run| - 1], |init|);
    }
  }

  /** This step of the caller ends RunForever with the context's error. */
  ghost predicate ReturnsCancelled(s: State, step: Step) {
    CallerStep(step) && Enabled(s, step) && Apply(s, step).call.result == Some(ContextCancelled)
  }

  /** The wait between two runs ends when it is over, or at once when the context is cancelled. */
  lemma WaitIsInterrupted(s: State)
    requires Reachable(s) && s.at.pc.BackingOff?
    ensures (exists step :: ReturnsCancelled(s, step)) <==> s.at.ctxDone
    ensures exists step :: CallerStep(step) && Enabled(s, step) && Apply(s, step).at.pc.Top?
  {
    hide Reachable, Enabled, Apply;
    NoResultYet(s);
    forall step | ReturnsCancelled(s, step) ensures s.at.ctxDone {
      AtBackoff(s, step);
    }
    AfterBackoff(s);
    if s.at.ctxDone {
      assert ReturnsCancelled(s, WaitCancelled);
    }
    assert CallerStep(WaitOver) && Enabled(s, WaitOver) && Apply(s, WaitOver).at.pc.Top?;
  }

  lemma AtBackoff(s: State, step: Step)
    requires s.at.pc.BackingOff? && CallerStep(step) && Enabled(s, step)
    ensures step.WaitOver? || (step.WaitCancelled? && s.at.ctxDone)
    ensures step.WaitOver? ==> Apply(s, step).call == s.call
  {
    hide SubPhase, Succeeded;
  }

  lemma AfterBackoff(s: State)
    requires s.at.pc.BackingOff?
    ensures Enabled(s, WaitOver) && Apply(s, WaitOver).at.pc.Top?
    ensures s.at.ctxDone ==>
              Enabled(s, WaitCancelled) && Apply(s, WaitCancelled).call.result == Some(ContextCancelled)
  {
  }

  lemma NoResultYet(s: State)
    requires Reachable(s) && !s.at.pc.Stopped?
    ensures s.call.result.None?
  {
    ReachableInv(s);
    hide TraceOk, ConnOk, RestOk, BackoffOk, BeatsOk, SubOk, OnceOk, SubMade, LanesOk;
  }

  lemma LoopStepIs(s: State, step: Step)
    requires LoopStep(step) && Enabled(s, step)
    ensures Apply(s, step) == ApplyLoop(s, step) && LoopEnabled(s, step)
  {
  }

  lemma ForeverPcs(s: State)
    requires Reachable(s)
    ensures !s.at.forever && !s.at.pc.Stopped? ==> !AfterCheck(s.at.pc) && !Deciding(s.at.pc)
  {
    ReachableInv(s);
    hide TraceOk, ConnOk, RestOk, BackoffOk, BeatsOk, SubOk, OnceOk, SubMade, LanesOk;
  }

  /** The result that is left for a call whose context is cancelled, unless it is just looking for a takeover. */
  predicate CancelResult(s: State, s': State) {
    && (!s.at.pc.CheckingStop? ==> !s'.at.pc.CheckingStop?)
    && (!s.at.pc.CheckingStop? && !s.at.pc.Stopped? && s'.at.pc.Stopped? ==>
          s'.call.result == Some(if s.at.forever then ContextCancelled else RunEnded))
  }

  lemma CancelledStep(s: State, step: Step)
    requires Reachable(s) && s.at.ctxDone && CallerStep(step) && Enabled(s, step)
    ensures var s' := Apply(s, step);
            && s'.at.ctxDone && s'.at.forever == s.at.forever && Rank(s'.at.pc) < Rank(s.at.pc)
            && CancelResult(s, s') && !s.at.pc.Stopped?
  {
    hide Reachable, Enabled, Apply, ApplyRun, ApplyLoop, RunEnabled, LoopEnabled, Rank;
    ForeverPcs(s);
    if RunStep(step) {
      RunStepIs(s, step);
      RunStepRank(s, step);
      RunFrame(s, step);
    } else {
      LoopStepIs(s, step);
      LoopStepRank(s, step);
    }
  }

  lemma {:induction false} CancelledShrinks(s: State, run: seq<Step>)
    requires Reachable(s) && s.at.ctxDone && CallerOnly(run) && Exec(s, run).Some?
    ensures var s' := Exec(s, run).value;
            && Reachable(s') && s'.at.ctxDone && s'.at.forever == s.at.forever
            && |run| <= Rank(s.at.pc) - Rank(s'.at.pc) && CancelResult(s, s')
            && (run != [] ==> !s.at.pc.Stopped?)
  {
    hide Reachable, Enabled, Apply, Rank;
    if run == [] {
    } else {
      var s1, step := Exec(s, run[..|run| - 1]).value, run[|run| - 1];
      CancelledShrinks(s, run[..|run| - 1]);
      StepReachable(s1, step);
      CancelledStep(s1, step);
    }
  }

  /**
   Once its context is cancelled a call comes to its end by at most 13 steps of its own, unless it waits while its read
   loop goes on reading; RunForever then returns the context's error, if it was not just looking for a takeover.
   */
  lemma CancelledCallEnds(s: State, run: seq<Step>)
    requires Reachable(s) && s.at.ctxDone && !s.at.pc.Stopped? && CallerOnly(run) && Exec(s, run).Some?
    ensures |run| <= 13
    ensures var s' := Exec(s, run).value;
            CallerStuck(s') ==>
              || (s'.at.pc.Stopped?
                  && (s.at.pc.CheckingStop?
                      || s'.call.result == Some(if s.at.forever then ContextCancelled else RunEnded)))
              || (s'.loops.reading && (s'.at.pc.Steady? || (s'.at.pc.AwaitingSubscribe? && !SubscriptionReturned(s'))))
  {
    hide Reachable, Enabled, Apply, CallerStuck, SubscriptionReturned;
    CancelledShrinks(s, run);
    var s' := Exec(s, run).value;
    if !s'.at.pc.Stopped? {
      CallerBlocks(s');
    }
  }

  // ---- The loops of runs, finished or not ----

  /** The read loops and the heartbeat loops there are. */
  function Readers(loops: Loops): nat {
    loops.staleReaders + if loops.reading then 1 else 0
  }

  function Beaters(loops: Loops): nat {
    loops.staleBeats + if loops.beating then 1 else 0
  }

  function SetUps(run: seq<Step>): nat {
    if run == [] then 0 else SetUps(run[..|run| - 1]) + if run[|run| - 1].SetUp? then 1 else 0
  }

  function ReadEnds(run: seq<Step>): nat {
    if run == [] then 0
    else ReadEnds(run[..|run| - 1]) + if run[|run| - 1].EndRead? || run[|run| - 1].EndStaleRead? then 1 else 0
  }

  function BeatEnds(run: seq<Step>): nat {
    if run == [] then 0 else BeatEnds(run[..|run| - 1]) + if run[|run| - 1].EndBeat? then 1 else 0
  }

  /** How often a heartbeat loop has closed a connection, and ended with that. */
  function Closes(beats: seq<Beat>): nat {
    if beats == [] then 0 else Closes(beats[..|beats| - 1]) + if beats[|beats| - 1].Close? then 1 else 0
  }

  lemma ClosesSnoc(beats: seq<Beat>, b: Beat)
    ensures Closes(beats + [b]) == Closes(beats) + if b.Close? then 1 else 0
  {
    assert (beats + [b])[..|beats|] == beats;
  }

  predicate LoopsMove(s: State, step: Step, s': State) {
    && Readers(s'.loops) == Readers(s.loops) + (if step.SetUp? then 1 else 0)
                            - (if step.EndRead? || step.EndStaleRead? then 1 else 0)
    && Beaters(s'.loops) + Closes(s'.log.beats) ==
         Beaters(s.loops) + Closes(s.log.beats) + (if step.SetUp? then 1 else 0) - (if step.EndBeat? then 1 else 0)
  }

  lemma CallerLoops(s: State, step: Step)
    requires LoopStep(step) && LoopEnabled(s, step)
    ensures LoopsMove(s, step, ApplyLoop(s, step))
  {
    hide Delay, Closes;
  }

  lemma RunLoops(s: State, step: Step)
    requires RunStep(step) && RunEnabled(s, step) && ConnOk(s.at.pc, s.core.hasConn, s.loops)
    ensures LoopsMove(s, step, ApplyRun(s, step))
  {
    ClosesSnoc(s.log.beats, Reset);
    hide Delay, Closes, Succeeded, SubPhase, PhaseOf, LaneOf, AckLane.Apply, AckLane.Enabled;
  }

  lemma OutsideLoops(s: State, step: Step)
    requires !LoopStep(step) && !RunStep(step) && OutsideEnabled(s, step)
    ensures LoopsMove(s, step, ApplyOutside(s, step))
  {
    ClosesSnoc(s.log.beats, Reset);
    ClosesSnoc(s.log.beats, Beat.Tick);
    ClosesSnoc(s.log.beats, Close);
    hide Closes, LaneOf, AckLane.Apply, AckLane.Enabled, AckLane.ApplyDispatch, IsHeartbeat;
  }

  lemma StepLoops(s: State, step: Step)
    requires Enabled(s, step) && ConnOk(s.at.pc, s.core.hasConn, s.loops)
    ensures LoopsMove(s, step, Apply(s, step))
  {
    hide LoopsMove, ApplyLoop, ApplyRun, ApplyOutside, LoopEnabled, RunEnabled, OutsideEnabled;
    if LoopStep(step) {
      CallerLoops(s, step);
    } else if RunStep(step) {
      RunLoops(s, step);
    } else {
      OutsideLoops(s, step);
    }
  }

  /**
   Loops are neither lost nor invented: every set-up starts one read loop and one heartbeat loop, which live, also
   beyond the end of their run, until they end or, for a heartbeat loop, close the connection.
   */
  lemma {:induction false} LoopsAreConserved(interval: int, maxMissed: int, run: seq<Step>)
    requires maxMissed > 0 && Exec(Init(interval, maxMissed), run).Some?
    ensures var s := Exec(Init(interval, maxMissed), run).value;
            && Readers(s.loops) + ReadEnds(run) == SetUps(run)
            && Beaters(s.loops) + BeatEnds(run) + Closes(s.log.beats) == SetUps(run)
  {
    hide Enabled, Apply;
    if run == [] {
    } else {
      var init := run[..|run| - 1];
      LoopsAreConserved(interval, maxMissed, init);
      LifecycleRuns.RunInvariant(interval, maxMissed, init);
      hide Inv, Readers, Beaters;
      var s := Exec(Init(interval, maxMissed), init).value;
      ConnOf(s);
      StepLoops(s, run[|run| - 1]);
    }
  }

  lemma ConnOf(s: State)
    requires Inv(s)
    ensures ConnOk(s.at.pc, s.core.hasConn, s.loops)
  {
  }

  /** Frames of any kind can come exactly while there is a read loop, ticks while there is a heartbeat loop. */
  lemma LoopsWork(s: State, frame: Frame)
    ensures Enabled(s, DispatchFrame(frame)) <==> Readers(s.loops) > 0
    ensures Enabled(s, EndRead) || Enabled(s, EndStaleRead) <==> Readers(s.loops) > 0
    ensures Enabled(s, HeartbeatTick(true)) || Enabled(s, HeartbeatTick(false)) <==> Beaters(s.loops) > 0
    ensures Enabled(s, EndBeat(true)) <==> Beaters(s.loops) > if s.loops.beating then 1 else 0
    ensures Enabled(s, EndBeat(false)) <==> s.loops.beating && s.at.ctxDone
  {
  }
}
