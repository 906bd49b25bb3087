/** What holds in every reachable state of a lane, whatever the order of the steps. */
module AckInvariant {
  import opened Wrappers
  import opened AckLane

  predicate Untouched(it: Item) {
    it.ackCh == Chan([], 0) && it.result == Chan([], 0) && it.write.NotStarted? && it.registeredAt.None?
  }

  /** The delivery is a dispatched ack, dispatched after the item had been registered. */
  predicate Valid(it: Item, log: seq<Ack>, d: Delivery) {
    it.registeredAt.Some? && it.registeredAt.value <= d.stamp < |log| && log[d.stamp] == d.ack
  }

  predicate ItemOk(it: Item, log: seq<Ack>) {
    && it.ackCh.received <= |it.ackCh.sent| <= 1
    && it.result.received <= |it.result.sent| <= 1
    && (it.ackCh.sent != [] ==> Valid(it, log, it.ackCh.sent[0]))
    && (it.stage.Calling? ==> it.phase.Enqueuing? || it.phase == Returned(ContextError))
    && (it.phase.Enqueuing? ==> it.stage.Calling?)
    && (it.stage.Calling? || it.stage.Queued? ==> Untouched(it))
    && (it.stage.Resolved? <==> it.result.sent != [])
    && (it.result.sent != [] && it.result.sent[0].Acked? ==> Valid(it, log, it.result.sent[0].delivery))
    && (it.registeredAt.Some? ==> it.calledAt <= it.registeredAt.value <= |log|)
    && (it.result.received == 1 ==> it.phase == Returned(Got(it.result.sent[0])))
    && (it.phase.Returned? && it.phase.result.Got? ==> it.result.received == 1)
    && it.calledAt <= |log|
  }

  predicate ItemsOk(items: seq<Item>, log: seq<Ack>) {
    forall i :: 0 <= i < |items| ==> ItemOk(items[i], log)
  }

  predicate Holding(pc: Worker) {
    pc.Registered? || pc.Sending? || pc.Waiting? || pc.Clearing?
  }

  /** The state of the worker's item fits its program counter. */
  predicate InHandOk(pc: Worker, it: Item, log: seq<Ack>)
    requires !pc.Idle?
  {
    && it.stage.InFlight?
    && (pc.Taken? ==> Untouched(it))
    && (!pc.Taken? ==> it.registeredAt.Some?)
    && (pc.Registered? ==> it.write.NotStarted?)
    && (pc.Sending? ==> !it.write.NotStarted?)
    && (pc.Waiting? ==> it.write == Done(true))
    && (pc.Delivering? && pc.outcome.Acked? ==> Valid(it, log, pc.outcome.delivery))
  }

  function InHand(workers: seq<Worker>): seq<nat> {
    if |workers| == 0 || workers[0].Idle? then [] else [workers[0].item]
  }

  /** There is at most one worker, and the only item in flight is the one in its hands. */
  predicate WorkerOk(items: seq<Item>, workers: seq<Worker>, log: seq<Ack>) {
    && |workers| <= 1
    && (InHand(workers) != [] ==>
          workers[0].item < |items| && InHandOk(workers[0], items[workers[0].item], log))
    && (forall i :: 0 <= i < |items| && items[i].stage.InFlight? ==> InHand(workers) == [i])
  }

  /** pendingAcks holds the channel of the worker's own item, still empty and unclaimed, or nothing. */
  predicate PendingOk(items: seq<Item>, workers: seq<Worker>, claims: seq<Claim>, pending: Option<nat>) {
    pending.Some? ==>
      && InHand(workers) == [pending.value] && Holding(workers[0])
      && pending.value < |items| && items[pending.value].ackCh.sent == []
      && forall k :: 0 <= k < |claims| ==> claims[k].item != pending.value
  }

  predicate ClaimOk(items: seq<Item>, c: Claim, log: seq<Ack>) {
    c.item < |items| && Valid(items[c.item], log, c.delivery) && items[c.item].ackCh.sent == []
  }

  /** A claimed ack is valid for its item, whose channel is empty and claimed only once. */
  predicate ClaimsOk(items: seq<Item>, claims: seq<Claim>, log: seq<Ack>) {
    && (forall k :: 0 <= k < |claims| ==> ClaimOk(items, claims[k], log))
    && (forall j, k :: 0 <= j < k < |claims| ==> claims[j].item != claims[k].item)
  }

  predicate ResolutionOk(items: seq<Item>, r: Resolution) {
    r.item < |items| && items[r.item].stage.Resolved? && items[r.item].result.sent == [r.outcome]
  }

  predicate ResolvedOk(items: seq<Item>, resolved: seq<Resolution>) {
    && (forall k :: 0 <= k < |resolved| ==> ResolutionOk(items, resolved[k]))
    && (forall j, k :: 0 <= j < k < |resolved| ==> resolved[j].item != resolved[k].item)
  }

  predicate BufferOk(items: seq<Item>, buffer: seq<nat>) {
    && |buffer| <= QUEUE_CAPACITY
    && (forall k :: 0 <= k < |buffer| ==> buffer[k] < |items| && items[buffer[k]].stage.Queued?)
    && (forall j, k :: 0 <= j < k < |buffer| ==> buffer[j] != buffer[k])
  }

  function ItemsOf(r: seq<Resolution>): (s: seq<nat>)
    ensures |s| == |r|
  {
    seq(|r|, k requires 0 <= k < |r| => r[k].item)
  }

  /** No item is lost, doubled or overtaken: enqueued = resolved ++ in hand ++ queued. */
  predicate Conserved(l: Lane) {
    l.enqueued == ItemsOf(l.resolved) + InHand(l.workers) + l.buffer
  }

  predicate Inv(l: Lane) {
    && ItemsOk(l.items, l.log)
    && WorkerOk(l.items, l.workers, l.log)
    && PendingOk(l.items, l.workers, l.claims, l.pending)
    && ClaimsOk(l.items, l.claims, l.log)
    && ResolvedOk(l.items, l.resolved)
    && BufferOk(l.items, l.buffer)
    && Conserved(l)
    && (l.hasQueue <==> |l.workers| == 1)
    && (|l.items| > 0 ==> l.hasQueue)
  }

  lemma EmptyInv()
    ensures Inv(EMPTY_LANE)
  {
  }

  // ---- Updating one item ----

  lemma UpdateItems(items: seq<Item>, i: nat, it: Item, log: seq<Ack>)
    requires i < |items| && ItemsOk(items, log) && ItemOk(it, log)
    ensures ItemsOk(items[i := it], log)
  {
  }

  lemma UpdateClaims(items: seq<Item>, claims: seq<Claim>, log: seq<Ack>, i: nat, it: Item)
    requires i < |items| && ClaimsOk(items, claims, log)
    requires items[i].registeredAt.Some? ==>
               it.registeredAt == items[i].registeredAt && it.ackCh.sent == items[i].ackCh.sent
    ensures ClaimsOk(items[i := it], claims, log)
  {
  }

  lemma UpdateResolved(items: seq<Item>, resolved: seq<Resolution>, i: nat, it: Item)
    requires i < |items| && ResolvedOk(items, resolved)
    requires items[i].stage.Resolved? ==> it.stage.Resolved? && it.result.sent == items[i].result.sent
    ensures ResolvedOk(items[i := it], resolved)
  {
  }

  lemma UpdateBuffer(items: seq<Item>, buffer: seq<nat>, i: nat, it: Item)
    requires i < |items| && BufferOk(items, buffer)
    requires items[i].stage.Queued? ==> it.stage.Queued?
    ensures BufferOk(items[i := it], buffer)
  {
  }

  lemma UpdateWorker(items: seq<Item>, workers: seq<Worker>, log: seq<Ack>, i: nat, it: Item)
    requires i < |items| && WorkerOk(items, workers, log)
    requires it.stage.InFlight? <==> items[i].stage.InFlight?
    requires InHand(workers) == [i] ==> InHandOk(workers[0], it, log)
    ensures WorkerOk(items[i := it], workers, log)
  {
  }

  /** An item step that moves neither its stage nor its place in the protocol keeps everything. */
  lemma UpdateKeeps(l: Lane, i: nat, it: Item)
    requires i < |l.items| && Inv(l) && ItemOk(it, l.log)
    requires it.stage == l.items[i].stage && it.registeredAt == l.items[i].registeredAt
    requires it.ackCh.sent == l.items[i].ackCh.sent
    requires it.result.sent == l.items[i].result.sent
    requires InHand(l.workers) == [i] ==> InHandOk(l.workers[0], it, l.log)
    ensures Inv(SetItem(l, i, it))
  {
    UpdateItems(l.items, i, it, l.log);
    UpdateClaims(l.items, l.claims, l.log, i, it);
    UpdateResolved(l.items, l.resolved, i, it);
    UpdateBuffer(l.items, l.buffer, i, it);
    UpdateWorker(l.items, l.workers, l.log, i, it);
    hide ItemOk, ItemsOk, ClaimsOk, ResolvedOk, BufferOk, WorkerOk, InHandOk;
  }

  // ---- One lemma a step ----

  lemma CallerKeeps(l: Lane, step: Step)
    requires Inv(l) && Enabled(l, step)
    requires step.Cancel? || step.GiveUpEnqueue? || step.TakeResult? || step.GiveUpWait?
    ensures Inv(Apply(l, step))
  {
    var i := step.i;
    assert ItemOk(l.items[i], l.log);
    var it := Apply(l, step).items[i];
    assert ItemOk(it, l.log);
    assert Apply(l, step).items == l.items[i := it];
    UpdateKeeps(l, i, it);
    hide ItemOk, ItemsOk, ClaimsOk, ResolvedOk, BufferOk, WorkerOk, PendingOk, InHandOk;
  }

  lemma WriteKeeps(l: Lane, i: nat, ok: bool)
    requires Inv(l) && Enabled(l, WriteFrame(i, ok))
    ensures Inv(Apply(l, WriteFrame(i, ok)))
  {
    assert ItemOk(l.items[i], l.log);
    UpdateKeeps(l, i, l.items[i].(write := Done(ok)));
    hide ItemOk, ItemsOk, ClaimsOk, ResolvedOk, BufferOk, WorkerOk, PendingOk, InHandOk;
  }

  lemma CallKeeps(l: Lane)
    requires Inv(l)
    ensures Inv(Apply(l, Call))
  {
    var items' := l.items + [NewItem(|l.log|)];
    assert ItemsOk(items', l.log);
    AppendItem(l, NewItem(|l.log|));
    hide ItemOk, ItemsOk, ClaimsOk, ResolvedOk, BufferOk, InHandOk;
    assert ItemsOf(l.resolved) + [] + l.buffer == ItemsOf(l.resolved) + InHand(l.workers) + l.buffer || l.hasQueue;
  }

  lemma AppendItem(l: Lane, it: Item)
    requires Inv(l) && it.stage.Calling?
    ensures ClaimsOk(l.items + [it], l.claims, l.log)
    ensures ResolvedOk(l.items + [it], l.resolved) && BufferOk(l.items + [it], l.buffer)
    ensures WorkerOk(l.items + [it], l.workers, l.log)
    ensures PendingOk(l.items + [it], l.workers, l.claims, l.pending)
  {
  }

  lemma EnqueueKeeps(l: Lane, i: nat)
    requires Inv(l) && Enabled(l, Enqueue(i))
    ensures Inv(Apply(l, Enqueue(i)))
  {
    assert ItemOk(l.items[i], l.log);
    var it := l.items[i].(phase := Awaiting, stage := Queued);
    assert ItemOk(it, l.log);
    UpdateItems(l.items, i, it, l.log);
    UpdateClaims(l.items, l.claims, l.log, i, it);
    UpdateResolved(l.items, l.resolved, i, it);
    UpdateBuffer(l.items, l.buffer, i, it);
    UpdateWorker(l.items, l.workers, l.log, i, it);
    assert ItemsOf(l.resolved) + InHand(l.workers) + l.buffer + [i] ==
           ItemsOf(l.resolved) + InHand(l.workers) + (l.buffer + [i]);
    hide ItemOk, ItemsOk, ClaimsOk, ResolvedOk, WorkerOk, InHandOk;
  }

  lemma DequeueKeeps(l: Lane)
    requires Inv(l) && |l.workers| > 0 && Enabled(l, Dequeue(0))
    ensures Inv(Apply(l, Dequeue(0)))
  {
    var i := l.buffer[0];
    assert l.items[i].stage.Queued?;
    assert ItemOk(l.items[i], l.log);
    var it := l.items[i].(stage := InFlight);
    assert ItemOk(it, l.log) && InHandOk(Taken(i), it, l.log);
    UpdateItems(l.items, i, it, l.log);
    UpdateClaims(l.items, l.claims, l.log, i, it);
    UpdateResolved(l.items, l.resolved, i, it);
    assert l.buffer == [i] + l.buffer[1..];
    assert ItemsOf(l.resolved) + [] + l.buffer == ItemsOf(l.resolved) + [i] + l.buffer[1..];
    hide ItemOk, ItemsOk, ClaimsOk, ResolvedOk, InHandOk;
  }

  /** The states before and after a worker step that keeps its item in hand. */
  predicate Moved(l: Lane, l': Lane) {
    && |l.workers| == |l'.workers| == 1 && !l.workers[0].Idle? && !l'.workers[0].Idle?
    && l'.workers[0].item == l.workers[0].item < |l.items| == |l'.items|
    && l'.items == l.items[l.workers[0].item := l'.items[l.workers[0].item]]
    && l'.claims == l.claims && l'.log == l.log && l'.resolved == l.resolved && l'.buffer == l.buffer
    && l'.enqueued == l.enqueued && l'.hasQueue == l.hasQueue
  }

  /** If the step registers an item it has not yet been registered, and if the item fits its new place, all is kept. */
  lemma MoveKeeps(l: Lane, l': Lane)
    requires Inv(l) && Moved(l, l')
    requires var was, it := l.items[l.workers[0].item], l'.items[l.workers[0].item];
             && ItemOk(it, l.log) && InHandOk(l'.workers[0], it, l.log)
             && (was.registeredAt.Some? ==> it.registeredAt == was.registeredAt && it.ackCh.sent == was.ackCh.sent)
    requires PendingOk(l'.items, l'.workers, l.claims, l'.pending)
    ensures Inv(l')
  {
    var i := l.workers[0].item;
    assert InHandOk(l.workers[0], l.items[i], l.log);
    UpdateItems(l.items, i, l'.items[i], l.log);
    UpdateClaims(l.items, l.claims, l.log, i, l'.items[i]);
    UpdateResolved(l.items, l.resolved, i, l'.items[i]);
    UpdateBuffer(l.items, l.buffer, i, l'.items[i]);
    hide ItemOk, ItemsOk, ClaimsOk, ResolvedOk, BufferOk, PendingOk, InHandOk;
  }

  lemma RegisterKeeps(l: Lane)
    requires Inv(l) && |l.workers| > 0 && Enabled(l, Register(0))
    ensures Inv(Apply(l, Register(0)))
  {
    var i := l.workers[0].item;
    assert InHandOk(l.workers[0], l.items[i], l.log) && ItemOk(l.items[i], l.log);
    forall k | 0 <= k < |l.claims| ensures l.claims[k].item != i {
      assert ClaimOk(l.items, l.claims[k], l.log);
    }
    hide ItemsOk, ClaimsOk, ResolvedOk, BufferOk, WorkerOk, ClaimOk;
    MoveKeeps(l, Apply(l, Register(0)));
  }

  lemma SendKeeps(l: Lane, step: Step)
    requires Inv(l) && Enabled(l, step)
    requires step.RefuseSend? || step.StartWrite? || step.FinishSend? || step.CancelSend?
    ensures Inv(Apply(l, step))
  {
    var i := l.workers[0].item;
    assert InHandOk(l.workers[0], l.items[i], l.log) && ItemOk(l.items[i], l.log);
    hide ItemsOk, ClaimsOk, ResolvedOk, BufferOk, WorkerOk, Valid;
    MoveKeeps(l, Apply(l, step));
  }

  lemma TakeAckKeeps(l: Lane, step: Step)
    requires Inv(l) && Enabled(l, step)
    requires step.TakeAck?
    ensures Inv(Apply(l, step))
  {
    var i := l.workers[0].item;
    assert InHandOk(l.workers[0], l.items[i], l.log) && ItemOk(l.items[i], l.log);
    hide ItemsOk, ClaimsOk, ResolvedOk, BufferOk, WorkerOk, Valid;
    MoveKeeps(l, Apply(l, step));
  }

  lemma GiveUpKeeps(l: Lane, step: Step)
    requires Inv(l) && Enabled(l, step)
    requires step.TimeOut? || step.CancelWait? || step.Clear?
    ensures Inv(Apply(l, step))
  {
    var i := l.workers[0].item;
    assert InHandOk(l.workers[0], l.items[i], l.log) && ItemOk(l.items[i], l.log);
    hide ItemsOk, ClaimsOk, ResolvedOk, BufferOk, WorkerOk, Valid;
    MoveKeeps(l, Apply(l, step));
  }

  lemma DeliverKeeps(l: Lane)
    requires Inv(l) && |l.workers| > 0 && Enabled(l, Deliver(0))
    ensures Inv(Apply(l, Deliver(0)))
  {
    var i, o := l.workers[0].item, l.workers[0].outcome;
    assert InHandOk(l.workers[0], l.items[i], l.log) && ItemOk(l.items[i], l.log);
    var it := l.items[i].(result := l.items[i].result.Send(o), stage := Resolved);
    assert ItemOk(it, l.log);
    UpdateItems(l.items, i, it, l.log);
    UpdateClaims(l.items, l.claims, l.log, i, it);
    UpdateResolved(l.items, l.resolved, i, it);
    UpdateBuffer(l.items, l.buffer, i, it);
    var r := Resolution(i, o);
    assert ResolutionOk(l.items[i := it], r);
    forall j | 0 <= j < |l.resolved| ensures l.resolved[j].item != i {
      assert ResolutionOk(l.items, l.resolved[j]);
    }
    ReleaseWorker(l.items, l.workers, l.log, it);
    assert ItemsOf(l.resolved + [r]) == ItemsOf(l.resolved) + [i];
    assert ItemsOf(l.resolved) + [i] + l.buffer == ItemsOf(l.resolved + [r]) + [] + l.buffer;
    hide ItemOk, ItemsOk, ClaimsOk, BufferOk, WorkerOk, InHandOk, ResolutionOk;
  }

  lemma ReleaseWorker(items: seq<Item>, workers: seq<Worker>, log: seq<Ack>, it: Item)
    requires WorkerOk(items, workers, log) && InHand(workers) != [] && !it.stage.InFlight?
    ensures WorkerOk(items[workers[0].item := it], [Idle], log)
  {
  }

  lemma LogGrows(l: Lane, ack: Ack)
    requires Inv(l)
    ensures Inv(l.(log := l.log + [ack]))
  {
  }

  lemma DispatchKeeps(l: Lane, ack: Ack, claimable: bool)
    requires Inv(l)
    ensures Inv(Apply(l, Dispatch(ack, claimable)))
  {
    LogGrows(l, ack);
    var l' := ApplyDispatch(l, ack, claimable);
    if claimable && l.pending.Some? {
      var i := l.pending.value;
      assert InHandOk(l.workers[0], l.items[i], l.log) && ItemOk(l.items[i], l.log);
      assert ClaimOk(l.items, Claim(i, Delivery(|l.log|, ack)), l'.log);
    }
    hide ItemsOk, ResolvedOk, BufferOk, WorkerOk, ClaimOk;
  }

  lemma PutAckKeeps(l: Lane, k: nat)
    requires Inv(l) && Enabled(l, PutAck(k))
    ensures Inv(Apply(l, PutAck(k)))
  {
    var c := l.claims[k];
    var i := c.item;
    assert ClaimOk(l.items, c, l.log) && ItemOk(l.items[i], l.log);
    var it := l.items[i].(ackCh := l.items[i].ackCh.Send(c.delivery));
    assert ItemOk(it, l.log);
    if InHand(l.workers) == [i] {
      assert InHandOk(l.workers[0], l.items[i], l.log);
      assert InHandOk(l.workers[0], it, l.log);
    }
    UpdateItems(l.items, i, it, l.log);
    UpdateResolved(l.items, l.resolved, i, it);
    UpdateBuffer(l.items, l.buffer, i, it);
    UpdateWorker(l.items, l.workers, l.log, i, it);
    RemoveClaim(l.items, l.claims, l.log, k, it);
    hide ItemOk, ItemsOk, ResolvedOk, BufferOk, WorkerOk, InHandOk, ClaimOk;
  }

  lemma DirectKeeps(l: Lane, step: Step)
    requires Inv(l) && Enabled(l, step) && (step.SendDirect? || step.WriteDirect?)
    ensures Inv(Apply(l, step))
  {
    hide ItemsOk, ClaimsOk, ResolvedOk, BufferOk, WorkerOk, PendingOk;
  }

  lemma RemoveClaim(items: seq<Item>, claims: seq<Claim>, log: seq<Ack>, k: nat, it: Item)
    requires k < |claims| && ClaimsOk(items, claims, log)
    requires claims[k].item < |items|
    ensures ClaimsOk(items[claims[k].item := it], claims[..k] + claims[k + 1..], log)
  {
  }

  lemma OnlyWorker(l: Lane, step: Step)
    requires Inv(l) && Enabled(l, step) && WorkerStep(step)
    ensures |l.workers| == 1 && step.w == 0
  {
    hide WorkerEnabled, ItemsOk, ClaimsOk, ResolvedOk, BufferOk, PendingOk, Conserved;
  }

  /** Every step of every goroutine keeps the invariant. */
  lemma StepKeeps(l: Lane, step: Step)
    requires Inv(l) && Enabled(l, step)
    ensures Inv(Apply(l, step))
  {
    hide Inv, Enabled, Apply;
    if WorkerStep(step) {
      OnlyWorker(l, step);
    }
    match step
    case Call => CallKeeps(l);
    case Enqueue(i) => EnqueueKeeps(l, i);
    case WriteFrame(i, ok) => WriteKeeps(l, i, ok);
    case Dequeue(w) => DequeueKeeps(l);
    case Register(w) => RegisterKeeps(l);
    case RefuseSend(w) => SendKeeps(l, step);
    case StartWrite(w) => SendKeeps(l, step);
    case FinishSend(w) => SendKeeps(l, step);
    case CancelSend(w) => SendKeeps(l, step);
    case TakeAck(w) => TakeAckKeeps(l, step);
    case TimeOut(w) => GiveUpKeeps(l, step);
    case CancelWait(w) => GiveUpKeeps(l, step);
    case Clear(w) => GiveUpKeeps(l, step);
    case Deliver(w) => DeliverKeeps(l);
    case Dispatch(ack, claimable) => DispatchKeeps(l, ack, claimable);
    case PutAck(k) => PutAckKeeps(l, k);
    case SendDirect => DirectKeeps(l, step);
    case WriteDirect(k, ok) => DirectKeeps(l, step);
    case _ => CallerKeeps(l, step);
  }
}
