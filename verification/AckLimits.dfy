/**
 Where the promises of the ack protocol end: from which idle states the next ack can go astray, with nothing more
 being sent past the queue, and from which the wire can get out of order, with nothing more being abandoned.
 */
module AckLimits {
  import opened Wrappers
  import opened AckLane
  import opened AckInvariant
  import opened AckOrder
  import opened AckAnswers
  import opened AckProtocol

  // ---- No way to break them ----

  /** From l, with an honest server, the next item is given an ack that answers another frame. */
  ghost predicate Misleads(l: Lane, l': Lane) {
    && Leads(l, l') && l'.honest && |l'.resolved| > |l.resolved|
    && var r := l'.resolved[|l.resolved|];
    r.outcome.Acked? && r.outcome.delivery.ack.answers != r.item
  }

  /** And that although no further frame is sent past the queue. */
  ghost predicate Strays(l: Lane, l': Lane) {
    Misleads(l, l') && |l'.direct| == |l.direct|
  }

  lemma OrderlyNeverStrays(l: Lane, l': Lane)
    requires Reachable(l) && NoneInHand(l) && AllAnswered(l) && NoneWriting(l)
    ensures !Strays(l, l')
  {
    hide Reachable, Leads, NoneInHand, AllAnswered, NoneWriting;
    if Strays(l, l') {
      AckAttribution(l, l', |l.resolved|);
    }
  }

  predicate WholeOrder(l: Lane) {
    InOrder(l.items, l.wire, l.enqueued, {})
  }

  /** From l, without another send being abandoned, the wire gets out of order. */
  ghost predicate Disorders(l: Lane, l': Lane) {
    Leads(l, l') && l'.abandoned == l.abandoned && !WholeOrder(l')
  }

  lemma AbandonedGrows(l: Lane, step: Step)
    requires Inv(l) && Enabled(l, step)
    ensures l.abandoned <= Apply(l, step).abandoned
  {
    hide Inv, Apply, Enabled;
    if Apply(l, step).abandoned != l.abandoned {
      AbandonedMoves(l, step);
    }
  }

  lemma {:induction false} OrderRun(from: Lane, run: seq<Step>)
    requires Inv(from) && OrderOk(from, {}) && Exec(from, run).Some?
    ensures var l := Exec(from, run).value;
            Inv(l) && from.abandoned <= l.abandoned && (l.abandoned == from.abandoned ==> OrderOk(l, {}))
  {
    hide Inv, OrderOk, Apply, Enabled;
    if run == [] {
    } else {
      OrderRun(from, run[..|run| - 1]);
      var l, step := Exec(from, run[..|run| - 1]).value, run[|run| - 1];
      StepKeeps(l, step);
      AbandonedGrows(l, step);
      if Apply(l, step).abandoned == from.abandoned {
        OrderKeeps(l, step, {});
      }
    }
  }

  lemma QuietNeverDisorders(l: Lane, l': Lane)
    requires LaneInv(l, 0, 0) && WholeOrder(l) && NoItemWriting(l)
    ensures !Disorders(l, l')
  {
    assert OrderOk(l, {});
    hide Inv, WireOk, AnswersReal, AttrOk;
    if Leads(l, l') && l'.abandoned == l.abandoned {
      var run :| Exec(l, run) == Some(l');
      OrderRun(l, run);
    }
    hide OneWriter, WireReal, AbandonedOk;
  }

  // ---- Runs ----

  /** Nothing has happened to the frames, the acks and the earlier items. */
  predicate Untroubled(l: Lane, l': Lane) {
    && l'.wire == l.wire && l'.direct == l.direct && l'.pending == l.pending && l'.claims == l.claims && l'.log == l.log
    && l'.resolved == l.resolved && l'.answered == l.answered && l'.honest == l.honest && l'.abandoned == l.abandoned
    && |l.items| <= |l'.items|
    && forall j :: 0 <= j < |l.items| ==> l'.items[j].write == l.items[j].write
  }

  lemma IdleWorker(l: Lane)
    requires Inv(l) && NoneInHand(l)
    ensures l.workers == if l.hasQueue then [Worker.Idle] else []
    ensures l.buffer != [] ==> l.hasQueue && l.buffer[0] < |l.items|
  {
    assert l.buffer != [] ==> l.buffer[0] < |l.items|;
    hide ItemsOk, ClaimsOk, ResolvedOk, PendingOk, Conserved;
  }

  /** A call arrives, and its item is queued for an idle worker; if there is none, the call starts one. */
  lemma NewCall(from: Lane, l: Lane) returns (l': Lane)
    requires Leads(from, l) && l.workers == (if l.hasQueue then [Worker.Idle] else []) && l.buffer == []
    ensures Leads(from, l') && Untroubled(l, l') && l'.workers == [Worker.Idle]
    ensures l'.buffer == [|l.items|] && |l'.items| == |l.items| + 1 && l'.enqueued == l.enqueued + [|l.items|]
    ensures l'.items[|l.items|].phase.Awaiting? && l'.items[|l.items|].calledAt == |l.log|
  {
    hide Leads;
    LeadsStep(from, l, Call);
    var i := |l.items|;
    var l1 := l.(items := l.items + [NewItem(|l.log|)], hasQueue := true, workers := [Worker.Idle]);
    assert Apply(l, Call) == l1;
    LeadsStep(from, l1, Enqueue(i));
    l' := Apply(l1, Enqueue(i));
    assert [] + [i] == [i];
  }

  /** The worker takes the item at the head of the queue. */
  lemma Take(from: Lane, l: Lane) returns (l': Lane, i: nat)
    requires Leads(from, l) && l.workers == [Worker.Idle] && l.buffer != [] && l.buffer[0] < |l.items|
    ensures Leads(from, l') && Untroubled(l, l') && l'.workers == [Taken(i)] && l'.enqueued == l.enqueued
    ensures i == l.buffer[0] < |l'.items| == |l.items|
    ensures l'.items[i].phase == l.items[i].phase && l'.items[i].calledAt == l.items[i].calledAt
  {
    hide Leads;
    LeadsStep(from, l, Dequeue(0));
    i := l.buffer[0];
    l' := Apply(l, Dequeue(0));
  }

  /** At an idle point the worker takes the next item: the one queued first, or else a new one. */
  lemma NextItem(from: Lane, l: Lane) returns (l': Lane, i: nat)
    requires Leads(from, l) && Inv(l) && NoneInHand(l)
    ensures Leads(from, l') && Untroubled(l, l') && l'.workers == [Taken(i)] && i < |l'.items|
    ensures l.buffer == [] ==>
              i == |l.items| && |l'.items| == |l.items| + 1 && l'.enqueued == l.enqueued + [i]
              && l'.items[i].phase.Awaiting? && l'.items[i].calledAt == |l.log|
  {
    IdleWorker(l);
    hide Inv, Leads;
    if l.buffer == [] {
      var l1 := NewCall(from, l);
      l', i := Take(from, l1);
    } else {
      l', i := Take(from, l);
    }
  }

  /** The worker registers its item, whose frame is written, and waits for the ack. */
  lemma RunToWaiting(from: Lane, l: Lane, i: nat) returns (l': Lane)
    requires Leads(from, l) && l.workers == [Taken(i)] && i < |l.items|
    ensures Leads(from, l') && l'.workers == [Waiting(i)] && l'.pending == Some(i) && l'.wire == l.wire + [i]
    ensures l'.items == l.items[i := l.items[i].(registeredAt := Some(|l.log|), write := Done(true))]
    ensures l' == l.(items := l'.items, workers := l'.workers, pending := l'.pending, wire := l'.wire)
  {
    hide Leads;
    LeadsStep(from, l, Register(0));
    var it := l.items[i].(registeredAt := Some(|l.log|));
    var l1 := l.(items := l.items[i := it], workers := [Registered(i)], pending := Some(i));
    assert Apply(l, Register(0)) == l1;
    l' := RunToSent(from, l1, i);
  }

  lemma RunToSent(from: Lane, l: Lane, i: nat) returns (l': Lane)
    requires Leads(from, l) && l.workers == [Registered(i)] && i < |l.items|
    ensures Leads(from, l')
    ensures l' == l.(items := l.items[i := l.items[i].(write := Done(true))],
                     workers := [Waiting(i)], wire := l.wire + [i])
  {
    hide Leads;
    LeadsStep(from, l, StartWrite(0));
    var l1 := l.(items := l.items[i := l.items[i].(write := Pending)], workers := [Sending(i)]);
    assert Apply(l, StartWrite(0)) == l1;
    l' := RunWrite(from, l1, i);
  }

  lemma RunWrite(from: Lane, l: Lane, i: nat) returns (l': Lane)
    requires Leads(from, l) && l.workers == [Sending(i)] && i < |l.items| && l.items[i].write.Pending?
    ensures Leads(from, l')
    ensures l' == l.(items := l.items[i := l.items[i].(write := Done(true))],
                     workers := [Waiting(i)], wire := l.wire + [i])
  {
    hide Leads;
    LeadsStep(from, l, WriteFrame(i, true));
    var l1 := l.(items := l.items[i := l.items[i].(write := Done(true))], wire := l.wire + [i]);
    assert Apply(l, WriteFrame(i, true)) == l1;
    LeadsStep(from, l1, FinishSend(0));
    l' := Apply(l1, FinishSend(0));
  }

  /** A write still under way is completed. */
  lemma LateWrite(from: Lane, l: Lane, p: nat) returns (l': Lane)
    requires Leads(from, l) && p < |l.items| && l.items[p].write.Pending?
    ensures Leads(from, l')
    ensures l' == l.(items := l.items[p := l.items[p].(write := Done(true))], wire := l.wire + [p])
  {
    hide Leads;
    LeadsStep(from, l, WriteFrame(p, true));
    l' := Apply(l, WriteFrame(p, true));
  }

  /** A direct one comes to its end, or to an error. */
  lemma LateDirect(from: Lane, l: Lane, k: nat, ok: bool) returns (l': Lane)
    requires Leads(from, l) && k < |l.direct| && l.direct[k].Pending?
    ensures Leads(from, l')
    ensures l' == l.(direct := l.direct[k := Done(ok)], wire := if ok then l.wire + [-1 - k] else l.wire)
  {
    hide Leads;
    LeadsStep(from, l, WriteDirect(k, ok));
    l' := Apply(l, WriteDirect(k, ok));
  }

  /** An ack is dispatched for the waiting item i and put into its channel. */
  lemma RunToAckPut(from: Lane, l: Lane, i: nat, ack: Ack) returns (l': Lane)
    requires Leads(from, l) && l.workers == [Waiting(i)] && i < |l.items| && l.pending == Some(i)
    requires l.items[i].ackCh == Chan([], 0)
    ensures Leads(from, l') && l'.workers == l.workers && l'.resolved == l.resolved
    ensures l'.items == l.items[i := l.items[i].(ackCh := Chan([Delivery(|l.log|, ack)], 0))]
    ensures l'.honest == (l.honest && HonestAck(l, ack)) && l'.direct == l.direct && l'.wire == l.wire
  {
    hide Leads, HonestAck;
    var d := Delivery(|l.log|, ack);
    LeadsStep(from, l, Dispatch(ack, true));
    var l1 := ApplyDispatch(l, ack, true);
    assert Apply(l, Dispatch(ack, true)) == l1;
    var k := |l.claims|;
    assert l1.claims[k] == Claim(i, d);
    hide ApplyDispatch;
    LeadsStep(from, l1, PutAck(k));
    assert [] + [d] == [d];
    l' := Apply(l1, PutAck(k));
  }

  /** The worker takes the ack and delivers it. */
  lemma RunToAcked(from: Lane, l: Lane, i: nat, d: Delivery) returns (l': Lane)
    requires Leads(from, l) && l.workers == [Waiting(i)] && i < |l.items|
    requires l.items[i].ackCh == Chan([d], 0) && l.items[i].result == Chan([], 0)
    ensures Leads(from, l') && l'.resolved == l.resolved + [Resolution(i, Acked(d))]
    ensures l'.honest == l.honest && l'.direct == l.direct && l'.wire == l.wire
    ensures l'.items == l.items[i := l.items[i].(ackCh := Chan([d], 1), result := Chan([Acked(d)], 0), stage := Resolved)]
  {
    hide Leads;
    LeadsStep(from, l, TakeAck(0));
    var l1 := l.(items := l.items[i := l.items[i].(ackCh := Chan([d], 1))], workers := [Delivering(i, Acked(d))]);
    assert Apply(l, TakeAck(0)) == l1;
    assert [] + [Acked(d)] == [Acked(d)];
    LeadsStep(from, l1, Deliver(0));
    l' := Apply(l1, Deliver(0));
  }

  lemma LeadsInvariant(from: Lane, l: Lane)
    requires LaneInv(from, 0, 0) && Leads(from, l)
    ensures LaneInv(l, 0, 0)
  {
    hide LaneInv;
    var run :| Exec(from, run) == Some(l);
    RunInvariant(from, run, 0, 0);
  }

  /** An item just taken has not been written, and its channels are empty. */
  lemma TakenIsFresh(l: Lane, i: nat)
    requires LaneInv(l, 0, 0) && l.workers == [Taken(i)]
    ensures i < |l.items| && Untouched(l.items[i]) && i !in l.wire
  {
    assert InHandOk(l.workers[0], l.items[i], l.log);
    assert WireReal(l.items, l.direct, l.wire);
    hide Inv, InOrder, OneWriter, AnswersReal, AttrOk;
  }

  // ---- The ack of a frame left unanswered goes to the next item ----

  lemma StrayAck(from: Lane, l: Lane, j: int, ack: Ack) returns (l': Lane, i: nat, d: Delivery)
    requires LaneInv(from, 0, 0) && Leads(from, l) && NoneInHand(l) && l.honest
    requires j in l.wire && j !in l.answered && ack.answers == j
    ensures Leads(from, l') && l'.honest && l'.resolved == l.resolved + [Resolution(i, Acked(d))]
    ensures d.ack == ack && i != j && l'.direct == l.direct
  {
    LeadsInvariant(from, l);
    assert Inv(l);
    hide LaneInv, Inv, Leads;
    var l1;
    l1, i := NextItem(from, l);
    LeadsInvariant(from, l1);
    TakenIsFresh(l1, i);
    var l2 := RunToWaiting(from, l1, i);
    hide Untroubled;
    var k :| 0 <= k < |l.wire| && l.wire[k] == j;
    assert l2.wire[k] == j;
    assert HonestAck(l2, ack);
    var l3 := RunToAckPut(from, l2, i, ack);
    d := Delivery(|l2.log|, ack);
    l' := RunToAcked(from, l3, i, d);
  }

  /** A write under way can still bring an unanswered frame onto the wire. */
  lemma WrittenIsUnanswered(l: Lane, f: int)
    requires LaneInv(l, 0, 0) && l.honest && !Sent(l.items, l.direct, f)
    ensures f !in l.answered
  {
    assert WireReal(l.items, l.direct, l.wire);
    hide Inv, InOrder, OneWriter, AttrOk;
  }

  /** Unless all is settled, there is an unanswered frame on the wire or one can get there. */
  lemma UnansweredFrame(l: Lane) returns (l': Lane, f: int)
    requires LaneInv(l, 0, 0) && l.honest && NoneInHand(l) && !(AllAnswered(l) && NoneWriting(l))
    ensures Leads(l, l') && NoneInHand(l') && l'.honest && l'.resolved == l.resolved && |l'.direct| == |l.direct|
    ensures f in l'.wire && f !in l'.answered
  {
    LeadsHere(l);
    l' := l;
    if !AllAnswered(l) {
      var k :| 0 <= k < |l.wire| && l.wire[k] !in l.answered;
      f := l.wire[k];
    } else if !NoItemWriting(l) {
      var p: nat :| p < |l.items| && l.items[p].write.Pending?;
      WrittenIsUnanswered(l, p);
      hide LaneInv, Leads;
      f := p;
      l' := LateWrite(l, l, p);
      assert l'.wire[|l.wire|] == p;
    } else {
      var k: nat :| k < |l.direct| && l.direct[k].Pending?;
      WrittenIsUnanswered(l, DirectFrame(k));
      hide LaneInv, Leads;
      f := DirectFrame(k);
      l' := LateDirect(l, l, k, true);
      assert l'.wire[|l.wire|] == f;
    }
  }

  lemma UnsettledStrays(l: Lane) returns (l': Lane)
    requires LaneInv(l, 0, 0) && l.honest && NoneInHand(l) && !(AllAnswered(l) && NoneWriting(l))
    ensures Strays(l, l')
  {
    hide LaneInv, Leads, NoneInHand, AllAnswered, NoneWriting;
    var l1, f := UnansweredFrame(l);
    var i, d;
    l', i, d := StrayAck(l, l1, f, Ack("", 0, f));
  }

  /**
   At an idle point, with an honest server and no further frame sent past the queue, the next ack can go astray
   exactly if some frame on the wire, direct ones included, has not been answered or is still being written.
   */
  lemma AckCanStray(l: Lane)
    requires Reachable(l) && l.honest && NoneInHand(l)
    ensures (exists l' :: Strays(l, l')) <==> !(AllAnswered(l) && NoneWriting(l))
  {
    ReachableInvariant(l);
    hide LaneInv, Strays, Reachable, NoneInHand, AllAnswered, NoneWriting;
    if AllAnswered(l) && NoneWriting(l) {
      forall l' ensures !Strays(l, l') {
        OrderlyNeverStrays(l, l');
      }
    } else {
      var l' := UnsettledStrays(l);
    }
  }

  lemma DirectNow(from: Lane, l: Lane, ok: bool) returns (l': Lane)
    requires Leads(from, l)
    ensures Leads(from, l')
    ensures l' == l.(direct := l.direct + [Done(ok)], wire := if ok then l.wire + [-1 - |l.direct|] else l.wire)
  {
    hide Leads;
    LeadsStep(from, l, SendDirect);
    var l1 := l.(direct := l.direct + [Pending]);
    assert Apply(l, SendDirect) == l1;
    l' := LateDirect(from, l1, |l.direct|, ok);
  }

  /** One more frame sent past the queue makes it possible from every idle point, orderly or not. */
  lemma DirectSendStrays(from: Lane, l: Lane, r: string) returns (l': Lane, i: nat, d: Delivery)
    requires LaneInv(from, 0, 0) && Leads(from, l) && l.honest && NoneInHand(l)
    ensures Leads(from, l') && l'.honest && l'.resolved == l.resolved + [Resolution(i, Acked(d))]
    ensures l'.direct == l.direct + [Done(true)] && d.ack == Ack(r, 0, DirectFrame(|l.direct|))
  {
    hide LaneInv, Leads, Apply, Enabled;
    LeadsInvariant(from, l);
    WrittenIsUnanswered(l, DirectFrame(|l.direct|));
    var l1 := DirectNow(from, l, true);
    assert l1.wire[|l.wire|] == DirectFrame(|l.direct|);
    l', i, d := StrayAck(from, l1, DirectFrame(|l.direct|), Ack(r, 0, DirectFrame(|l.direct|)));
  }

  // ---- A write under way lets the next frame overtake it ----

  lemma Overtake(from: Lane, l: Lane, p: nat) returns (l': Lane, i: nat)
    requires LaneInv(from, 0, 0) && Leads(from, l) && NoneInHand(l)
    requires p < |l.items| && l.items[p].write.Pending?
    ensures Leads(from, l') && l'.abandoned == l.abandoned && !WholeOrder(l')
    ensures l'.wire == l.wire + [i] + [p] && i != p
    ensures l.buffer == [] ==> l'.enqueued == l.enqueued + [|l.items|] && i == |l.items|
  {
    LeadsInvariant(from, l);
    assert Inv(l);
    hide LaneInv, Inv, Leads;
    var l1;
    l1, i := NextItem(from, l);
    LeadsInvariant(from, l1);
    TakenIsFresh(l1, i);
    var l2 := RunToWaiting(from, l1, i);
    l' := LateWrite(from, l2, p);
    LeadsInvariant(from, l');
    OutOfOrder(l', l.wire, i, p);
  }

  /** The item in hand is the last one whose frame has its place on the wire. */
  lemma OutOfOrder(l: Lane, wire: seq<int>, i: nat, p: nat)
    requires LaneInv(l, 0, 0) && l.workers == [Waiting(i)] && l.wire == wire + [i] + [p] && i != p
    requires i < |l.items| && l.items[i].write == Done(true)
    ensures !WholeOrder(l)
  {
    AroundHand(l, i);
    hide LaneInv;
    WrittenAround(l.items, {}, ItemsOf(l.resolved), i, l.buffer);
    NoneWritten(l.items, {}, l.buffer);
    WithoutSnoc(wire, i, {});
    WithoutSnoc(wire + [i], p, {});
    hide Written, Without;
    var before := Written(l.items, {}, ItemsOf(l.resolved));
    var others := Without(wire, {});
    assert (before + [i] + [])[|before|] == i && (others + [i] + [p])[|others| + 1] == p;
    assert |before + [i] + []| == |before| + 1;
  }

  /**
   At an idle point at which the wire is in order, it can get out of order without another send being abandoned
   exactly if the abandoned frame of some item is still being written. Frames sent past the queue do not matter here.
   */
  lemma OrderCanBreak(l: Lane)
    requires Reachable(l) && NoneInHand(l) && WholeOrder(l)
    ensures (exists l' :: Disorders(l, l')) <==> !NoItemWriting(l)
  {
    ReachableInvariant(l);
    hide LaneInv, Reachable, WholeOrder, Leads;
    if NoItemWriting(l) {
      forall l' ensures !Disorders(l, l') {
        QuietNeverDisorders(l, l');
      }
    } else {
      var p: nat :| p < |l.items| && l.items[p].write.Pending?;
      LeadsHere(l);
      var l', i := Overtake(l, l, p);
      assert Disorders(l, l');
    }
  }

  lemma InvOf(l: Lane)
    requires LaneInv(l, 0, 0)
    ensures Inv(l)
  {
    hide Inv, WireOk, AnswersReal, AttrOk;
  }

  // ---- Concrete runs ----

  /** The first item of a req_id is taken from the queue. */
  lemma FirstItem() returns (l: Lane, i: nat)
    ensures LaneInv(EMPTY_LANE, 0, 0) && Reachable(l) && Untroubled(EMPTY_LANE, l)
    ensures l.workers == [Taken(i)] && i < |l.items| && l.enqueued == [i]
  {
    hide LaneInv, Inv, Leads, Apply, Enabled;
    EmptyLaneInv();
    InvOf(EMPTY_LANE);
    LeadsHere(EMPTY_LANE);
    l, i := NextItem(EMPTY_LANE, EMPTY_LANE);
    assert [] + [i] == [i];
  }

  /** A worker that has given up clears the pending ack and delivers the failure. */
  lemma RunToResolved(from: Lane, l: Lane, i: nat, why: Reason) returns (l': Lane)
    requires Leads(from, l) && l.workers == [Clearing(i, why)] && i < |l.items| && l.items[i].result == Chan([], 0)
    ensures Leads(from, l') && l'.workers == [Worker.Idle] && l'.resolved == l.resolved + [Resolution(i, Failed(why))]
    ensures l'.items == l.items[i := l.items[i].(result := Chan([Failed(why)], 0), stage := Resolved)]
    ensures l'.buffer == l.buffer && l'.wire == l.wire && l'.enqueued == l.enqueued
    ensures l'.answered == l.answered && l'.honest == l.honest
  {
    hide Leads;
    LeadsStep(from, l, Clear(0));
    var l1 := l.(workers := [Delivering(i, Failed(why))], pending := None);
    assert Apply(l, Clear(0)) == l1;
    assert [] + [Failed(why)] == [Failed(why)];
    LeadsStep(from, l1, Deliver(0));
    l' := Apply(l1, Deliver(0));
  }

  /** An item is sent and times out. */
  lemma OneTimedOut() returns (l: Lane, i: nat)
    ensures Reachable(l) && l.workers == [Worker.Idle] && l.honest && l.answered == {}
    ensures l.wire == [i] && l.resolved == [Resolution(i, Failed(TimedOut))]
  {
    var l1;
    l1, i := FirstItem();
    LeadsInvariant(EMPTY_LANE, l1);
    TakenIsFresh(l1, i);
    hide LaneInv, Leads, Apply, Enabled;
    var l2 := RunToWaiting(EMPTY_LANE, l1, i);
    var l3 := TimeOutNow(EMPTY_LANE, l2, i);
    assert [] + [i] == [i];
    l := RunToResolved(EMPTY_LANE, l3, i, TimedOut);
  }

  lemma TimeOutNow(from: Lane, l: Lane, i: nat) returns (l': Lane)
    requires Leads(from, l) && l.workers == [Waiting(i)] && i < |l.items|
    ensures Leads(from, l') && l' == l.(workers := [Clearing(i, TimedOut)])
  {
    hide Leads;
    LeadsStep(from, l, TimeOut(0));
    l' := Apply(l, TimeOut(0));
  }

  /** With an honest server the late ack of an item that timed out is given to the next one of the same req_id. */
  lemma LateAckIsMisattributed(r: string) returns (l: Lane)
    ensures Reachable(l) && l.honest && |l.resolved| == 2
    ensures l.resolved[0].outcome == Failed(TimedOut) && l.resolved[1].outcome.Acked?
    ensures l.resolved[1].outcome.delivery.ack == Ack(r, 0, l.resolved[0].item)
    ensures l.resolved[1].item != l.resolved[0].item
  {
    hide Leads, LaneInv;
    var l0, j := OneTimedOut();
    EmptyLaneInv();
    assert l0.wire[0] == j;
    var i, d;
    l, i, d := StrayAck(EMPTY_LANE, l0, j, Ack(r, 0, j));
  }

  /**
   An honest run in which nobody gives up: a frame is sent by Send, then another of the same req_id by SendAndWait,
   and the ack of the first is given to the second.
   */
  lemma DirectAckIsMisattributed(r: string) returns (l: Lane, i: nat, d: Delivery)
    ensures Reachable(l) && l.honest && l.direct == [Done(true)]
    ensures l.resolved == [Resolution(i, Acked(d))] && d.ack == Ack(r, 0, DirectFrame(0))
  {
    hide Leads, LaneInv;
    EmptyLaneInv();
    LeadsHere(EMPTY_LANE);
    l, i, d := DirectSendStrays(EMPTY_LANE, EMPTY_LANE, r);
    assert [] + [Resolution(i, Acked(d))] == [Resolution(i, Acked(d))] && [] + [Done(true)] == [Done(true)];
  }

  /** The send of an item is cancelled while its frame is being written. */
  lemma OneAbandoned() returns (l: Lane, p: nat)
    ensures Reachable(l) && l.workers == [Worker.Idle] && l.buffer == [] && l.wire == [] && l.enqueued == [p]
    ensures p < |l.items| && l.items[p].write.Pending?
  {
    var l1;
    l1, p := FirstItem();
    LeadsInvariant(EMPTY_LANE, l1);
    TakenIsFresh(l1, p);
    hide LaneInv, Leads, Apply, Enabled;
    assert l1.buffer == [] by { AroundTaken(l1, p); }
    var l2 := AbandonSend(EMPTY_LANE, l1, p);
    l := RunToResolved(EMPTY_LANE, l2, p, Cancelled);
    assert [] + [p] == [p];
  }

  lemma AroundTaken(l: Lane, p: nat)
    requires LaneInv(l, 0, 0) && l.workers == [Taken(p)] && l.enqueued == [p]
    ensures l.buffer == []
  {
    AroundHand(l, p);
  }

  lemma AbandonSend(from: Lane, l: Lane, i: nat) returns (l': Lane)
    requires Leads(from, l) && l.workers == [Taken(i)] && i < |l.items|
    ensures Leads(from, l') && l'.workers == [Clearing(i, Cancelled)] && |l'.items| == |l.items|
    ensures l'.items[i].write.Pending? && l'.items[i].result == l.items[i].result
    ensures l'.buffer == l.buffer && l'.wire == l.wire && l'.enqueued == l.enqueued
  {
    hide Leads;
    LeadsStep(from, l, Register(0));
    var l1 := Apply(l, Register(0));
    assert l1.workers == [Registered(i)];
    LeadsStep(from, l1, StartWrite(0));
    var l2 := Apply(l1, StartWrite(0));
    assert l2.workers == [Sending(i)] && l2.items[i].write.Pending?;
    l' := CancelNow(from, l2, i);
  }

  lemma CancelNow(from: Lane, l: Lane, i: nat) returns (l': Lane)
    requires Leads(from, l) && l.workers == [Sending(i)] && i < |l.items| && l.items[i].write.Pending?
    ensures Leads(from, l') && l'.workers == [Clearing(i, Cancelled)] && |l'.items| == |l.items|
    ensures l'.items[i] == l.items[i].(cancelled := true)
    ensures l'.buffer == l.buffer && l'.wire == l.wire && l'.enqueued == l.enqueued
  {
    hide Leads;
    LeadsStep(from, l, Cancel(i));
    var l1 := Apply(l, Cancel(i));
    LeadsStep(from, l1, CancelSend(0));
    l' := Apply(l1, CancelSend(0));
  }

  /** A send that is cancelled in mid-write lets the next frame overtake its own. */
  lemma AbandonedSendIsOvertaken() returns (l: Lane, a: nat, b: nat)
    ensures Reachable(l) && a != b && l.enqueued == [a, b] && l.wire == [b, a]
  {
    hide Leads, LaneInv;
    var l0;
    l0, a := OneAbandoned();
    EmptyLaneInv();
    l, b := Overtake(EMPTY_LANE, l0, a);
    assert [a] + [b] == [a, b] && [] + [b] + [a] == [b, a];
  }
}
