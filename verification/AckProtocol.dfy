/** Runs of the ack protocol, and what holds along every run. */
module AckProtocol {
  import opened Wrappers
  import opened AckLane
  import opened AckInvariant
  import opened AckOrder
  import opened AckAnswers

  /** The state that a run of steps leads to, if each of them was enabled. */
  function Exec(from: Lane, run: seq<Step>): Option<Lane> {
    if run == [] then Some(from) else
    match Exec(from, run[..|run| - 1])
    case None => None
    case Some(l) => if Enabled(l, run[|run| - 1]) then Some(Apply(l, run[|run| - 1])) else None
  }

  ghost predicate Leads(from: Lane, l: Lane) {
    exists run :: Exec(from, run) == Some(l)
  }

  ghost predicate Reachable(l: Lane) {
    Leads(EMPTY_LANE, l)
  }

  lemma LeadsHere(l: Lane)
    ensures Leads(l, l)
  {
    assert Exec(l, []) == Some(l);
  }

  lemma LeadsStep(from: Lane, l: Lane, step: Step)
    requires Leads(from, l) && Enabled(l, step)
    ensures Leads(from, Apply(l, step))
  {
    hide Enabled, Apply;
    var run :| Exec(from, run) == Some(l);
    assert (run + [step])[..|run|] == run;
    assert Exec(from, run + [step]) == Some(Apply(l, step));
  }

  lemma {:induction false} LeadsOn(from: Lane, l: Lane, run: seq<Step>)
    requires Leads(from, l) && Exec(l, run).Some?
    ensures Leads(from, Exec(l, run).value)
  {
    hide Enabled, Apply;
    if run == [] {
    } else {
      LeadsOn(from, l, run[..|run| - 1]);
      LeadsStep(from, Exec(l, run[..|run| - 1]).value, run[|run| - 1]);
    }
  }

  lemma StartReachable()
    ensures Reachable(EMPTY_LANE)
  {
    LeadsHere(EMPTY_LANE);
  }

  lemma StepReachable(l: Lane, step: Step)
    requires Reachable(l) && Enabled(l, step)
    ensures Reachable(Apply(l, step))
  {
    hide Leads;
    LeadsStep(EMPTY_LANE, l, step);
  }

  // ---- Invariants over runs ----

  /**
   All that is kept; n and d are the numbers of items resolved and of frames sent directly at the point from which
   acks are followed.
   */
  predicate LaneInv(l: Lane, n: nat, d: nat) {
    Inv(l) && WireOk(l) && AnswersReal(l) && AttrOk(l, n, d)
  }

  lemma EmptyLaneInv()
    ensures LaneInv(EMPTY_LANE, 0, 0)
  {
    EmptyInv();
    EmptyWire();
    hide Inv, WireOk, AnswersReal, AttrOk;
    EmptyAnswers();
  }

  lemma {:induction false} RunInvariant(from: Lane, run: seq<Step>, n: nat, d: nat)
    requires LaneInv(from, n, d) && Exec(from, run).Some?
    ensures LaneInv(Exec(from, run).value, n, d)
  {
    hide Inv, WireOk, AnswersReal, AttrOk, Enabled, Apply;
    if run == [] {
    } else {
      RunInvariant(from, run[..|run| - 1], n, d);
      var l, step := Exec(from, run[..|run| - 1]).value, run[|run| - 1];
      StepKeeps(l, step);
      WireKeeps(l, step);
      AnswersKeep(l, step);
      AttrKeeps(l, step, n, d);
    }
  }

  lemma ReachableInvariant(l: Lane)
    requires Reachable(l)
    ensures LaneInv(l, 0, 0)
  {
    EmptyLaneInv();
    hide LaneInv;
    var run :| Exec(EMPTY_LANE, run) == Some(l);
    RunInvariant(EMPTY_LANE, run, 0, 0);
  }

  /**
   One worker at most; what pendingAcks holds is the channel of that worker's own item, empty and
   unclaimed; and while the worker is about to clear, there is nothing else it could remove.
   */
  lemma PendingBelongsToWorker(l: Lane)
    requires Reachable(l)
    ensures |l.workers| <= 1
    ensures l.pending.Some? ==>
              && |l.workers| == 1 && Holding(l.workers[0]) && l.workers[0].item == l.pending.value < |l.items|
              && l.items[l.pending.value].ackCh == Chan([], 0)
              && forall k :: 0 <= k < |l.claims| ==> l.claims[k].item != l.pending.value
    ensures |l.workers| == 1 && l.workers[0].Clearing? ==> l.pending in {None, Some(l.workers[0].item)}
  {
    ReachableInvariant(l);
    if l.pending.Some? {
      assert ItemOk(l.items[l.pending.value], l.log);
    }
  }

  /** Every ack channel ever receives at most one ack, and every item at most one result. */
  lemma AtMostOnce(l: Lane, i: nat)
    requires Reachable(l) && i < |l.items|
    ensures |l.items[i].ackCh.sent| <= 1 && |l.items[i].result.sent| <= 1
  {
    ReachableInvariant(l);
    assert ItemOk(l.items[i], l.log);
  }

  /** The two channel sends that could stall the read loop or a worker always have room. */
  lemma SendsNeverBlock(l: Lane)
    requires Reachable(l)
    ensures forall k: nat :: k < |l.claims| ==> Enabled(l, PutAck(k))
    ensures |l.workers| == 1 && l.workers[0].Delivering? ==> Enabled(l, Deliver(0))
  {
    ReachableInvariant(l);
    forall k: nat | k < |l.claims| ensures Enabled(l, PutAck(k)) {
      assert ClaimOk(l.items, l.claims[k], l.log);
    }
    if |l.workers| == 1 && l.workers[0].Delivering? {
      assert InHandOk(l.workers[0], l.items[l.workers[0].item], l.log);
      assert ItemOk(l.items[l.workers[0].item], l.log);
    }
  }

  /** A worker is never stuck: short of an empty queue or a write in progress, some step of it can be taken. */
  lemma WorkerProgress(l: Lane)
    requires Reachable(l) && |l.workers| == 1
    requires l.workers[0].Idle? ==> l.buffer != []
    requires l.workers[0].Sending? ==> l.workers[0].item < |l.items| && !l.items[l.workers[0].item].write.Pending?
    ensures exists step :: WorkerStep(step) && Enabled(l, step)
  {
    ReachableInvariant(l);
    SendsNeverBlock(l);
    var step := match l.workers[0]
      case Idle => Dequeue(0)
      case Taken(_) => Register(0)
      case Registered(_) => StartWrite(0)
      case Sending(_) => FinishSend(0)
      case Waiting(_) => TimeOut(0)
      case Clearing(_, _) => Clear(0)
      case Delivering(_, _) => Deliver(0);
    if !l.workers[0].Idle? {
      assert InHandOk(l.workers[0], l.items[l.workers[0].item], l.log);
    }
    assert WorkerStep(step) && Enabled(l, step);
  }

  /** Items are resolved in the order they were enqueued, and none is lost or invented. */
  lemma ConservationAndOrder(l: Lane)
    requires Reachable(l)
    ensures l.enqueued == ItemsOf(l.resolved) + InHand(l.workers) + l.buffer
    ensures forall k :: 0 <= k < |l.resolved| ==>
              l.resolved[k].item < |l.items| && l.items[l.resolved[k].item].result.sent == [l.resolved[k].outcome]
  {
    ReachableInvariant(l);
    forall k | 0 <= k < |l.resolved|
      ensures l.resolved[k].item < |l.items| && l.items[l.resolved[k].item].result.sent == [l.resolved[k].outcome]
    {
      assert ResolutionOk(l.items, l.resolved[k]);
    }
  }

  /** The send of an item starts only after every item enqueued before it has its result. */
  lemma SendsAreSerial(l: Lane, j: nat, k: nat)
    requires Reachable(l) && j < k < |l.enqueued|
    requires l.enqueued[k] < |l.items| && !l.items[l.enqueued[k]].write.NotStarted?
    ensures l.enqueued[j] < |l.items| && |l.items[l.enqueued[j]].result.sent| == 1
  {
    ReachableInvariant(l);
    QueuedNotStarted(l);
    assert l.enqueued[j] == ItemsOf(l.resolved)[j];
    assert ResolutionOk(l.items, l.resolved[j]);
  }

  lemma QueuedNotStarted(l: Lane)
    requires Inv(l)
    ensures var started := |l.resolved| + |InHand(l.workers)|;
            forall k :: started <= k < |l.enqueued| ==>
              l.enqueued[k] < |l.items| && l.items[l.enqueued[k]].write.NotStarted?
  {
  }

  /**
   The frames whose send was not abandoned are on the wire in enqueue order, whatever happened to the others and
   whatever was sent past the queue; if no send was abandoned the frames of items on the wire are exactly the written
   ones in enqueue order, and if nothing was sent directly either they are all there is.
   */
  lemma WireOrder(l: Lane)
    requires Reachable(l)
    ensures Without(l.wire, l.abandoned) == Written(l.items, l.abandoned, l.enqueued)
    ensures l.abandoned == {} ==> Without(l.wire, {}) == Written(l.items, {}, l.enqueued)
    ensures l.abandoned == {} && l.direct == [] ==> l.wire == Written(l.items, {}, l.enqueued)
  {
    ReachableInvariant(l);
    assert WireReal(l.items, l.direct, l.wire);
    if l.direct == [] {
      WithoutNothing(l.wire);
    }
  }

  /** An ack that SendAndWait returns was dispatched after the item's registration, hence after the call. */
  lemma ReturnedAckIsLater(l: Lane, i: nat)
    requires Reachable(l) && i < |l.items|
    requires l.items[i].phase.Returned? && l.items[i].phase.result.Got? && l.items[i].phase.result.outcome.Acked?
    ensures var d := l.items[i].phase.result.outcome.delivery;
            && l.items[i].registeredAt.Some?
            && l.items[i].calledAt <= l.items[i].registeredAt.value <= d.stamp < |l.log|
            && l.log[d.stamp] == d.ack
  {
    ReachableInvariant(l);
    assert ItemOk(l.items[i], l.log);
  }

  /** What holds at an orderly point holds for the acks after it. */
  lemma OrderlyInvariant(from: Lane, l: Lane)
    requires LaneInv(from, 0, 0) && NoneInHand(from) && AllAnswered(from) && NoneWriting(from) && Leads(from, l)
    ensures LaneInv(l, |from.resolved|, |from.direct|)
  {
    OrderlyAttr(from);
    hide Inv, WireOk, AnswersReal, AttrOk, Enabled, Apply;
    var run :| Exec(from, run) == Some(l);
    RunInvariant(from, run, |from.resolved|, |from.direct|);
  }

  /**
   Attribution: from any orderly point on, as from the very start, at which no item is in hand, no frame being written
   and every frame on the wire answered: if every item before the k-th ended by an ack or because its send failed,
   if no frame of the req_id is sent past the queue, and if the server acknowledges only frames it received and each
   at most once, the ack that the k-th item gets is the one for its own frame.
   */
  lemma AckAttribution(from: Lane, l: Lane, k: nat)
    requires Reachable(from) && NoneInHand(from) && AllAnswered(from) && NoneWriting(from)
    requires Leads(from, l) && l.honest && |l.direct| == |from.direct|
    requires |from.resolved| <= k < |l.resolved|
    requires forall j :: |from.resolved| <= j < k ==> Harmless(l.resolved[j].outcome)
    requires l.resolved[k].outcome.Acked?
    ensures l.resolved[k].outcome.delivery.ack.answers == l.resolved[k].item
  {
    ReachableInvariant(from);
    OrderlyInvariant(from, l);
    hide Reachable, Leads, Inv, WireOk, AnswersReal, CleanOk, Clean;
    assert OwnAck(l.resolved, |from.resolved|, k);
  }

  /** In particular if the req_id is never used past the queue. */
  lemma AttributionFromStart(l: Lane, k: nat)
    requires Reachable(l) && l.honest && l.direct == [] && k < |l.resolved|
    requires forall j :: 0 <= j < k ==> Harmless(l.resolved[j].outcome)
    requires l.resolved[k].outcome.Acked?
    ensures l.resolved[k].outcome.delivery.ack.answers == l.resolved[k].item
  {
    StartReachable();
    AckAttribution(EMPTY_LANE, l, k);
  }
}
