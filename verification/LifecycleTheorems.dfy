/** What the client promises over every sequence of runs, and the one promise that fails. */
module LifecycleTheorems {
  import opened Wrappers
  import opened Bytes
  import opened Integers
  import opened ClientCore
  import opened Backoff
  import opened Lifecycle
  import opened LifecycleInvariants
  import opened LifecycleRuns
  import AckLane
  import AckProtocol

  /** The callbacks alternate Connected, Disconnected, ..., and the recorded state is the last one reported. */
  lemma CallbacksAlternate(s: State)
    requires Reachable(s)
    ensures forall k :: 0 <= k < |s.log.trace| ==> s.log.trace[k] == if k % 2 == 0 then Connected else Disconnected
    ensures !s.at.pc.Notifying? ==>
              (s.core.connected <==> s.log.trace != [] && s.log.trace[|s.log.trace| - 1] == Connected)
  {
    ReachableInv(s);
    hide RestOk, BackoffOk, TakeoverOk, BeatsOk, SubOk, LanesOk;
  }

  /**
   At a backoff wait the client is recorded disconnected, unless this call of RunForever began with a client
   recorded connected (left so by a cancelled call) and no dial has succeeded since.
   */
  lemma BackoffRecordedState(s: State)
    requires Reachable(s) && s.at.pc.BackingOff?
    ensures s.core.connected <==> s.call.startedConnected && !s.call.dialled
  {
    ReachableInv(s);
    hide TraceOk, BackoffOk, TakeoverOk, BeatsOk, SubOk, LanesOk;
  }

  /** There is a connection exactly between set-up and tear-down of a Run; otherwise no loop is left but stale ones. */
  lemma ConnectionOwnedByRun(s: State)
    requires Reachable(s)
    ensures s.core.hasConn <==> Online(s.at.pc)
    ensures !Online(s.at.pc) ==> !s.loops.reading && !s.loops.beating
  {
    ReachableInv(s);
    hide TraceOk, RestOk, BackoffOk, TakeoverOk, BeatsOk, SubOk, LanesOk;
  }

  // ---- Backoff ----

  lemma {:induction false} AttemptSinceConnected(runs: seq<bool>, c: nat)
    requires c <= |runs| && |runs| > 0
    requires c > 0 ==> runs[c - 1]
    requires forall k :: c <= k < |runs| ==> !runs[k]
    ensures AttemptAfter(runs) == if c > 0 then |runs| - c + 1 else |runs|
  {
    if c == |runs| {
    } else {
      var shorter := runs[..|runs| - 1];
      if shorter != [] {
        AttemptSinceConnected(shorter, c);
      }
    }
  }

  /**
   The n-th wait of RunForever, when run c was the last of the first n runs that connected (c = 0 if none was):
   the interval doubled once per failure since, capped at 30 s.
   */
  lemma BackoffWaits(s: State, n: nat, c: nat)
    requires Reachable(s) && 2 * s.interval < INT64_LIMIT
    requires 1 <= n <= |s.call.waits| && c <= n <= |s.call.runs|
    requires c > 0 ==> s.call.runs[c - 1]
    requires forall k :: c <= k < n ==> !s.call.runs[k]
    ensures var a := if c > 0 then n - c + 1 else n;
            && s.call.waits[n - 1] == Intended(s.interval, a)
            && (s.interval <= MAX_DELAY ==>
                  s.call.waits[n - 1] ==
                  if s.interval * Pow2(a - 1) < MAX_DELAY then s.interval * Pow2(a - 1) else MAX_DELAY)
  {
    ReachableInv(s);
    hide TraceOk, ConnOk, RestOk, TakeoverOk, BeatsOk, SubOk, LanesOk, WaitsOk, AttemptAfter, Intended;
    assert WaitsOk(s.interval, s.call.runs, s.call.waits);
    hide Inv;
    WaitOf(s.interval, s.call.runs, s.call.waits, n, c);
    if s.interval <= MAX_DELAY {
      IntendedCapped(s.interval, if c > 0 then n - c + 1 else n);
    }
  }

  lemma WaitOf(interval: int, runs: seq<bool>, waits: seq<int>, n: nat, c: nat)
    requires WaitsOk(interval, runs, waits) && 0 < interval && 2 * interval < INT64_LIMIT
    requires 1 <= n <= |waits| && c <= n
    requires c > 0 ==> runs[c - 1]
    requires forall k :: c <= k < n ==> !runs[k]
    ensures waits[n - 1] == Intended(interval, if c > 0 then n - c + 1 else n)
  {
    AttemptSinceConnected(runs[..n], c);
    DelayAsIntended(interval);
    hide AttemptAfter, Delay, Intended;
    assert waits[n - 1] == Delay(interval, AttemptAfter(runs[..n - 1 + 1]));
  }

  lemma IntendedCapped(interval: int, a: int)
    requires 0 < interval <= MAX_DELAY && a >= 1
    ensures Intended(interval, a) ==
              if interval * Pow2(a - 1) < MAX_DELAY then interval * Pow2(a - 1) else MAX_DELAY
  {
    assert Pow2(0) == 1;
  }

  /** Every completed run but the last of RunForever is followed by one wait. */
  lemma OneWaitPerRun(s: State)
    requires Reachable(s)
    ensures |s.call.waits| <= |s.call.runs|
    ensures s.at.pc.BackingOff? ==> |s.call.waits| == |s.call.runs|
  {
    ReachableInv(s);
    hide TraceOk, RestOk, BeatsOk, SubOk, LanesOk, AttemptAfter;
  }

  // ---- Takeover ----

  /**
   After a takeover RunForever starts at most one more Run, and none if the takeover came before the current
   one returned; it reports a takeover only if there was one, and otherwise returns only when cancelled.
   */
  lemma TakeoverEndsReconnecting(s: State)
    requires Reachable(s)
    ensures s.core.stopReconnect <==> s.log.takeovers > 0
    ensures forall k :: 0 <= k < |s.call.starts| ==> !s.call.starts[k].stopSetAtReturn
    ensures forall k :: 0 <= k < |s.call.starts| - 1 ==> !s.call.starts[k].stopSet
    ensures s.call.result == Some(ServerDisconnected) ==> s.log.takeovers > 0
    ensures s.call.result.Some? && s.at.forever ==>
              s.call.result == Some(ServerDisconnected) || (s.call.result == Some(ContextCancelled) && s.at.ctxDone)
  {
    ReachableInv(s);
    hide TraceOk, RestOk, BackoffOk, BeatsOk, SubOk, LanesOk;
    if s.call.result.Some? {
      match s.call.result.value
      case ContextCancelled =>
      case RunEnded =>
      case ServerDisconnected =>
    }
  }

  lemma {:induction false} TakeoverIsSticky(s: State, run: seq<Step>)
    requires Exec(s, run).Some? && s.core.stopReconnect
    ensures Exec(s, run).value.core.stopReconnect
  {
    hide Apply, Enabled;
    if run == [] {
    } else {
      TakeoverIsSticky(s, run[..|run| - 1]);
      StepKeepsTakeover(Exec(s, run[..|run| - 1]).value, run[|run| - 1]);
    }
  }

  lemma StepKeepsTakeover(s: State, step: Step)
    requires Enabled(s, step) && s.core.stopReconnect
    ensures Apply(s, step).core.stopReconnect
  {
    hide ApplyRun, ApplyOutside, RunEnabled, OutsideEnabled, Delay;
    if RunStep(step) {
      RunFrame(s, step);
    } else if !LoopStep(step) {
      OutsideFrame(s, step);
    }
  }

  // ---- Heartbeat ----

  /**
   The counter never leaves 0..MaxMissedPong; it counts the ticks since the last reset; a tick finds the
   connection lost exactly when MaxMissedPong ticks have gone by without one.
   */
  lemma HeartbeatCounts(s: State)
    requires Reachable(s)
    ensures 0 <= s.core.missedPongCount <= s.maxMissed
    ensures s.core.missedPongCount == Unanswered(s.log.beats)
    ensures forall k :: 0 <= k < |s.log.beats| && !s.log.beats[k].Reset? ==>
              (s.log.beats[k].Close? <==> Unanswered(s.log.beats[..k]) == s.maxMissed)
  {
    ReachableInv(s);
    hide TraceOk, RestOk, BackoffOk, TakeoverOk, SubOk, LanesOk, Unanswered;
    forall k | 0 <= k < |s.log.beats| && !s.log.beats[k].Reset?
      ensures s.log.beats[k].Close? <==> Unanswered(s.log.beats[..k]) == s.maxMissed
    {
      assert BeatAt(s.log.beats, s.maxMissed, k);
    }
  }

  // ---- Acks ----

  /** What the ack protocol guarantees of a lane holds of every req_id of every client, in every reachable state. */
  lemma LanesFollowTheProtocol(s: State, reqId: string)
    requires Reachable(s) && reqId in s.lanes
    ensures AckProtocol.Reachable(s.lanes[reqId])
    ensures forall k :: 0 <= k < |s.lanes[reqId].log| ==> s.lanes[reqId].log[k].reqId == reqId
    ensures reqId != "" ==>
              forall ls :: AckLane.Enabled(s.lanes[reqId], ls) && !ls.Dispatch? ==>
                Enabled(s, LaneStep(reqId, ls)) &&
                Apply(s, LaneStep(reqId, ls)).lanes == s.lanes[reqId := AckLane.Apply(s.lanes[reqId], ls)]
  {
    ReachableInv(s);
    hide AckLane.Enabled, AckLane.Apply, TraceOk, RestOk, BackoffOk, TakeoverOk, BeatsOk, SubOk, AckProtocol.Reachable;
    assert LaneOk(reqId, s.lanes[reqId]);
  }

  // ---- Connected ----

  /** The server's answer to a confirmed subscription: an ack with errcode 0 for its req_id, dispatched after the call. */
  predicate Acknowledged(lanes: map<string, AckLane.Lane>, sub: Sub) {
    && sub.reqId in lanes && sub.item < |lanes[sub.reqId].items|
    && var l, it := lanes[sub.reqId], lanes[sub.reqId].items[sub.item];
    && Succeeded(it.phase)
    && var d := it.phase.result.outcome.delivery;
    it.calledAt <= d.stamp < |l.log| && l.log[d.stamp] == d.ack && d.ack.reqId == sub.reqId && d.ack.errCode == 0
  }

  lemma ConfirmedIsAcknowledged(lanes: map<string, AckLane.Lane>, sub: Sub)
    requires LanesOk(lanes) && Confirmed(lanes, sub)
    ensures Acknowledged(lanes, sub)
  {
    var l := lanes[sub.reqId];
    assert LaneOk(sub.reqId, l);
    AckProtocol.ReturnedAckIsLater(l, sub.item);
    hide AckProtocol.Reachable;
  }

  /**
   Connected is reported, and the run counts as connected, only once a subscription sent in this run has been
   acknowledged; and there are at least as many different acknowledged subscriptions as Connected callbacks.
   */
  lemma ConnectedNeedsAck(s: State)
    requires Reachable(s)
    ensures s.at.pc == Notifying(true) || s.at.pc.Steady? ==> s.call.runConnected
    ensures s.call.runConnected ==> s.call.subscribed && Acknowledged(s.lanes, s.at.sub)
    ensures s.at.forever && InRun(s.at.pc) && s.core.connectedThisRun ==>
              s.call.subscribed && Acknowledged(s.lanes, s.at.sub)
    ensures forall k :: 0 <= k < |s.log.confirmed| ==> Acknowledged(s.lanes, s.log.confirmed[k])
    ensures Distinct(s.log.confirmed) && (|s.log.trace| + 1) / 2 <= |s.log.confirmed|
  {
    ReachableInv(s);
    hide TraceOk, RestOk, WaitsOk, AttemptAfter, TakeoverOk, BeatsOk, LanesOk, Distinct, Confirmed, Acknowledged;
    forall sub | Confirmed(s.lanes, sub) ensures Acknowledged(s.lanes, sub) {
      ConfirmedIsAcknowledged(s.lanes, sub);
    }
  }

  /** A run whose subscription timed out, failed or was refused has not reported Connected. */
  lemma RefusedIsSilent(s: State)
    requires Reachable(s) && SubPhase(s).Some? && !Succeeded(SubPhase(s).value)
    ensures !s.call.runConnected && s.at.pc != Notifying(true)
  {
    ReachableInv(s);
    hide TraceOk, RestOk, BackoffOk, TakeoverOk, BeatsOk, LanesOk, AllConfirmed, Succeeded, PhaseOf;
  }

  /** A run that has given up on its subscription: it has not connected, and at most reports that it is disconnected. */
  predicate Leaving(s: State, before: seq<ConnState>) {
    && (s.at.pc.TearingDown? || s.at.pc.CheckingContext? || s.at.pc.MarkingDisconnected?
        || s.at.pc == Notifying(false) || s.at.pc.Returning?)
    && !s.call.runConnected && (s.at.forever ==> !s.core.connectedThisRun)
    && before <= s.log.trace && forall k :: |before| <= k < |s.log.trace| ==> s.log.trace[k] == Disconnected
  }

  lemma LeavingKeeps(s: State, step: Step, before: seq<ConnState>)
    requires Leaving(s, before) && Enabled(s, step) && !step.Return?
    ensures Leaving(Apply(s, step), before)
  {
    if RunStep(step) {
      LeavingRun(s, step, before);
    } else if !LoopStep(step) {
      hide ApplyOutside, OutsideEnabled;
      OutsideFrame(s, step);
    }
  }

  lemma LeavingRun(s: State, step: Step, before: seq<ConnState>)
    requires Leaving(s, before) && RunStep(step) && RunEnabled(s, step)
    ensures Leaving(ApplyRun(s, step), before)
  {
    hide Succeeded, SubPhase, LaneOf, AckLane.Apply;
  }

  /**
   A run whose read loop ends, or whose subscription fails, before the subscription has been confirmed: until it
   returns it neither reports Connected nor counts as connected, even if the ack arrives after all.
   */
  lemma {:induction false} NoLateConnect(s: State, first: Step, run: seq<Step>)
    requires Reachable(s) && s.at.pc.AwaitingSubscribe? && (first.SeeReadEnded? || first.SubscribeFails?)
    requires Enabled(s, first) && Return !in run && Exec(Apply(s, first), run).Some?
    ensures Leaving(Exec(Apply(s, first), run).value, s.log.trace)
  {
    if run == [] {
      ReachableInv(s);
      hide TraceOk, RestOk, WaitsOk, AttemptAfter, TakeoverOk, BeatsOk, LanesOk, Confirmed, Succeeded, SubPhase;
    } else {
      hide Apply, Enabled, Leaving;
      NoLateConnect(s, first, run[..|run| - 1]);
      assert run[|run| - 1] in run;
      LeavingKeeps(Exec(Apply(s, first), run[..|run| - 1]).value, run[|run| - 1], s.log.trace);
    }
  }
}
