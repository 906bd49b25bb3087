/**
 The ack protocol of one req_id: SendAndWait, the worker of its reply queue, the writer
 goroutines that Send starts, and the read loop that claims acks. Frames of the req_id may also be sent past
 the queue, by calling Send directly as the reply examples do. Everything the client does for an ack
 is keyed by req_id, so the protocol is a product of such lanes; one step is one critical
 section or one channel operation, and steps of different goroutines interleave freely.
 */
module AckLane {
  import opened Wrappers

  const QUEUE_CAPACITY := 32

  /** `answers` is the frame the server acknowledges: the server knows it, the client never sees it. */
  datatype Ack = Ack(reqId: string, errCode: int, answers: int)

  /** A channel of capacity one, with everything ever sent on it. */
  datatype Chan<T> = Chan(sent: seq<T>, received: nat) {
    predicate Ready() { received < |sent| }
    predicate HasRoom() { |sent| <= received }
    function Send(x: T): Chan<T> { Chan(sent + [x], received) }
    function Receive(): Chan<T> { Chan(sent, received + 1) }
  }

  /** An ack together with its position in the log of dispatched acks. */
  datatype Delivery = Delivery(stamp: nat, ack: Ack)

  datatype Reason = SendFailed | TimedOut | Cancelled
  datatype Outcome = Acked(delivery: Delivery) | Failed(why: Reason)
  datatype CallResult = Got(outcome: Outcome) | ContextError
  datatype Phase = Enqueuing | Awaiting | Returned(result: CallResult)
  datatype Write = NotStarted | Pending | Done(ok: bool)
  datatype Stage = Calling | Queued | InFlight | Resolved

  /** One SendAndWait call and the queuedReply it makes. The last three fields are history. */
  datatype Item = Item(
    cancelled: bool, phase: Phase, ackCh: Chan<Delivery>, result: Chan<Outcome>, write: Write,
    stage: Stage, calledAt: nat, registeredAt: Option<nat>)

  /** Where a processReplyQueue goroutine stands. */
  datatype Worker =
    | Idle
    | Taken(item: nat)
    | Registered(item: nat)
    | Sending(item: nat)
    | Waiting(item: nat)
    | Clearing(item: nat, why: Reason)
    | Delivering(item: nat, outcome: Outcome)

  /** A read loop that has taken the channel of an item from pendingAcks and still holds the ack. */
  datatype Claim = Claim(item: nat, delivery: Delivery)

  datatype Resolution = Resolution(item: nat, outcome: Outcome)

  /** A frame is known by its item; those of direct sends have the negative numbers. */
  function DirectFrame(k: nat): int {
    -1 - k
  }

  datatype Lane = Lane(
    items: seq<Item>,
    hasQueue: bool,
    buffer: seq<nat>,
    workers: seq<Worker>,
    pending: Option<nat>,
    claims: seq<Claim>,
    direct: seq<Write>,
    // history
    log: seq<Ack>,
    enqueued: seq<nat>,
    resolved: seq<Resolution>,
    wire: seq<int>,
    abandoned: set<nat>,
    answered: set<int>,
    honest: bool)

  const EMPTY_LANE := Lane([], false, [], [], None, [], [], [], [], [], [], {}, {}, true)

  datatype Step =
    | Call
    | Cancel(i: nat)
    | Enqueue(i: nat)
    | GiveUpEnqueue(i: nat)
    | TakeResult(i: nat)
    | GiveUpWait(i: nat)
    | Dequeue(w: nat)
    | Register(w: nat)
    | RefuseSend(w: nat)
    | StartWrite(w: nat)
    | WriteFrame(i: nat, ok: bool)
    | FinishSend(w: nat)
    | CancelSend(w: nat)
    | TakeAck(w: nat)
    | TimeOut(w: nat)
    | CancelWait(w: nat)
    | Clear(w: nat)
    | Deliver(w: nat)
    | Dispatch(ack: Ack, claimable: bool)
    | PutAck(k: nat)
    | SendDirect
    | WriteDirect(k: nat, ok: bool)

  predicate Enabled(l: Lane, step: Step) {
    match step
    case Call => true
    case Cancel(i) => i < |l.items|
    case Enqueue(i) => i < |l.items| && l.items[i].phase.Enqueuing? && |l.buffer| < QUEUE_CAPACITY
    case GiveUpEnqueue(i) => i < |l.items| && l.items[i].phase.Enqueuing? && l.items[i].cancelled
    case TakeResult(i) => i < |l.items| && l.items[i].phase.Awaiting? && l.items[i].result.Ready()
    case GiveUpWait(i) => i < |l.items| && l.items[i].phase.Awaiting? && l.items[i].cancelled
    case WriteFrame(i, ok) => i < |l.items| && l.items[i].write.Pending?
    case Dispatch(ack, claimable) => true
    case PutAck(k) => k < |l.claims| && l.claims[k].item < |l.items| && l.items[l.claims[k].item].ackCh.HasRoom()
    case SendDirect => true
    case WriteDirect(k, ok) => k < |l.direct| && l.direct[k].Pending?
    case _ => step.w < |l.workers| && WorkerEnabled(l, step)
  }

  predicate WorkerStep(step: Step) {
    || step.Dequeue? || step.Register? || step.RefuseSend? || step.StartWrite? || step.FinishSend?
    || step.CancelSend? || step.TakeAck? || step.TimeOut? || step.CancelWait? || step.Clear? || step.Deliver?
  }

  predicate WorkerEnabled(l: Lane, step: Step)
    requires WorkerStep(step) && step.w < |l.workers|
  {
    var pc := l.workers[step.w];
    (pc.Idle? || pc.item < |l.items|) &&
    match step
    case Dequeue(_) => pc.Idle? && |l.buffer| > 0
    case Register(_) => pc.Taken?
    case RefuseSend(_) => pc.Registered?
    case StartWrite(_) => pc.Registered?
    case FinishSend(_) => pc.Sending? && l.items[pc.item].write.Done?
    case CancelSend(_) => pc.Sending? && l.items[pc.item].cancelled
    case TakeAck(_) => pc.Waiting? && l.items[pc.item].ackCh.Ready()
    case TimeOut(_) => pc.Waiting?
    case CancelWait(_) => pc.Waiting? && l.items[pc.item].cancelled
    case Clear(_) => pc.Clearing?
    case Deliver(_) => pc.Delivering? && l.items[pc.item].result.HasRoom()
  }

  function NewItem(now: nat): Item {
    Item(false, Enqueuing, Chan([], 0), Chan([], 0), NotStarted, Calling, now, None)
  }

  function SetItem(l: Lane, i: nat, item: Item): Lane
    requires i < |l.items|
  {
    l.(items := l.items[i := item])
  }

  function SetWorker(l: Lane, w: nat, pc: Worker): Lane
    requires w < |l.workers|
  {
    l.(workers := l.workers[w := pc])
  }

  /** replyQueue: the queue and its worker are made together, the first time the req_id is seen. */
  function OpenQueue(l: Lane): Lane {
    if l.hasQueue then l else l.(hasQueue := true, workers := l.workers + [Idle])
  }

  /** Whether the server, sending this ack, acknowledges a received frame for the first time. */
  predicate HonestAck(l: Lane, ack: Ack) {
    (exists k :: 0 <= k < |l.wire| && l.wire[k] == ack.answers) && ack.answers !in l.answered
  }

  function ApplyDispatch(l: Lane, ack: Ack, claimable: bool): Lane {
    var logged := l.(log := l.log + [ack],
                     honest := l.honest && HonestAck(l, ack),
                     answered := l.answered + {ack.answers});
    if claimable && l.pending.Some? then
      logged.(pending := None, claims := l.claims + [Claim(l.pending.value, Delivery(|l.log|, ack))])
    else logged
  }

  function Apply(l: Lane, step: Step): Lane
    requires Enabled(l, step)
  {
    match step
    case Call => OpenQueue(l.(items := l.items + [NewItem(|l.log|)]))
    case Cancel(i) => SetItem(l, i, l.items[i].(cancelled := true))
    case Enqueue(i) =>
      SetItem(l, i, l.items[i].(phase := Awaiting, stage := Queued))
        .(buffer := l.buffer + [i], enqueued := l.enqueued + [i])
    case GiveUpEnqueue(i) => SetItem(l, i, l.items[i].(phase := Returned(ContextError)))
    case TakeResult(i) =>
      var item := l.items[i];
      SetItem(l, i, item.(phase := Returned(Got(item.result.sent[item.result.received])),
                          result := item.result.Receive()))
    case GiveUpWait(i) => SetItem(l, i, l.items[i].(phase := Returned(ContextError)))
    case WriteFrame(i, ok) =>
      SetItem(l, i, l.items[i].(write := Done(ok))).(wire := if ok then l.wire + [i] else l.wire)
    case Dispatch(ack, claimable) => ApplyDispatch(l, ack, claimable)
    case PutAck(k) =>
      var c := l.claims[k];
      SetItem(l, c.item, l.items[c.item].(ackCh := l.items[c.item].ackCh.Send(c.delivery)))
        .(claims := l.claims[..k] + l.claims[k + 1..])
    case SendDirect => l.(direct := l.direct + [Pending])
    case WriteDirect(k, ok) =>
      l.(direct := l.direct[k := Done(ok)], wire := if ok then l.wire + [DirectFrame(k)] else l.wire)
    case _ => ApplyWorker(l, step)
  }

  function ApplyWorker(l: Lane, step: Step): Lane
    requires WorkerStep(step) && step.w < |l.workers| && WorkerEnabled(l, step)
  {
    var w := step.w;
    var pc := l.workers[w];
    match step
    case Dequeue(_) =>
      var i := l.buffer[0];
      var l' := SetWorker(l, w, Taken(i)).(buffer := l.buffer[1..]);
      if i < |l.items| then SetItem(l', i, l.items[i].(stage := InFlight)) else l'
    case Register(_) =>
      SetItem(SetWorker(l, w, Registered(pc.item)), pc.item, l.items[pc.item].(registeredAt := Some(|l.log|)))
        .(pending := Some(pc.item))
    case RefuseSend(_) => SetWorker(l, w, Clearing(pc.item, SendFailed))
    case StartWrite(_) =>
      SetItem(SetWorker(l, w, Sending(pc.item)), pc.item, l.items[pc.item].(write := Pending))
    case FinishSend(_) =>
      SetWorker(l, w, if l.items[pc.item].write.ok then Waiting(pc.item) else Clearing(pc.item, SendFailed))
    case CancelSend(_) =>
      SetWorker(l, w, Clearing(pc.item, Cancelled))
        .(abandoned := if l.items[pc.item].write.Pending? then l.abandoned + {pc.item} else l.abandoned)
    case TakeAck(_) =>
      var ch := l.items[pc.item].ackCh;
      SetItem(SetWorker(l, w, Delivering(pc.item, Acked(ch.sent[ch.received]))), pc.item,
              l.items[pc.item].(ackCh := ch.Receive()))
    case TimeOut(_) => SetWorker(l, w, Clearing(pc.item, TimedOut))
    case CancelWait(_) => SetWorker(l, w, Clearing(pc.item, Cancelled))
    case Clear(_) => SetWorker(l, w, Delivering(pc.item, Failed(pc.why))).(pending := None)
    case Deliver(_) =>
      SetItem(SetWorker(l, w, Idle), pc.item,
              l.items[pc.item].(result := l.items[pc.item].result.Send(pc.outcome), stage := Resolved))
        .(resolved := l.resolved + [Resolution(pc.item, pc.outcome)])
  }
}
